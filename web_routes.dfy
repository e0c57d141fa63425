/** The web front end's API routes (the route.ts files under frontend/app/api): the product search with
    review counts, and the channel, category and brand lists. Each route gets the rows its
    query returned, or the query's error message. */
module WebRoutes {
  import opened Wrappers
  import opened Text
  import opened Models
  import opened Collections

  /** A failed request: the HTTP status and the `error` field of the body. */
  datatype Failure = Failure(status: nat, message: string)

  const ServerError: nat := 500

  // ---------------------------------------------------------------- GET /api/products

  /** `column ILIKE '%q%'`: the column is set and holds q, ignoring case. */
  predicate LikeIgnoringCase(text: Option<string>, q: string) {
    text.Some? && Contains(Lower(text.value), Lower(q))
  }

  /** The filters of the products query, each applied only when its parameter is non-empty:
      q in the name, brand or description, and the exact category and brand. */
  predicate Wanted(p: Product, q: Option<string>, category: Option<string>, brand: Option<string>) {
    && (Truthy(q) ==> LikeIgnoringCase(p.name, q.value) || LikeIgnoringCase(p.brand, q.value)
                      || LikeIgnoringCase(p.description, q.value))
    && (Truthy(category) ==> p.category == category)
    && (Truthy(brand) ==> p.brand == brand)
  }

  function Filter(ps: seq<Product>, q: Option<string>, category: Option<string>, brand: Option<string>): (r: seq<Product>)
    ensures forall p :: p in r <==> p in ps && Wanted(p, q, category, brand)
    ensures multiset(r) <= multiset(ps)
  {
    if ps == [] then []
    else
      var rest := Filter(ps[1..], q, category, brand);
      assert forall p :: p in ps <==> p == ps[0] || p in ps[1..];
      assert ps == [ps[0]] + ps[1..];
      if Wanted(ps[0], q, category, brand) then [ps[0]] + rest else rest
  }

  predicate NewestFirst(ps: seq<Product>) {
    forall i, j :: 0 <= i < j < |ps| ==> ps[i].createdAt >= ps[j].createdAt
  }

  /** p placed before the first product that is not newer than it. */
  function InsertByDate(p: Product, ps: seq<Product>): (r: seq<Product>)
    ensures multiset(r) == multiset(ps) + multiset{p}
    ensures |r| == |ps| + 1
  {
    if ps == [] || ps[0].createdAt <= p.createdAt then [p] + ps
    else
      assert ps == [ps[0]] + ps[1..];
      [ps[0]] + InsertByDate(p, ps[1..])
  }

  lemma {:induction false} InsertByDateSorted(p: Product, ps: seq<Product>)
    requires NewestFirst(ps)
    ensures NewestFirst(InsertByDate(p, ps))
  {
    if ps != [] && ps[0].createdAt > p.createdAt {
      InsertByDateSorted(p, ps[1..]);
      var r := InsertByDate(p, ps[1..]);
      forall k | 0 <= k < |r| ensures ps[0].createdAt >= r[k].createdAt {
        assert r[k] in multiset(r);
        assert r[k] == p || r[k] in multiset(ps[1..]);
        if r[k] != p {
          assert r[k] in ps[1..];
          var m :| 0 <= m < |ps[1..]| && ps[1..][m] == r[k];
          assert ps[m + 1] == r[k];
        }
      }
    }
  }

  /** ORDER BY created_at DESC; products made at the same moment keep their order. */
  function NewestFirstOrder(ps: seq<Product>): (r: seq<Product>)
    ensures multiset(r) == multiset(ps)
    ensures |r| == |ps|
  {
    if ps == [] then []
    else
      assert ps == [ps[0]] + ps[1..];
      InsertByDate(ps[0], NewestFirstOrder(ps[1..]))
  }

  lemma {:induction false} NewestFirstOrderSorted(ps: seq<Product>)
    ensures NewestFirst(NewestFirstOrder(ps))
  {
    if ps != [] {
      NewestFirstOrderSorted(ps[1..]);
      InsertByDateSorted(ps[0], NewestFirstOrder(ps[1..]));
    }
  }

  /** A product of the response: its row and the two computed fields. */
  datatype Listed = Listed(product: Product, reviewCount: nat, positiveRate: nat)

  /** The number of reviews naming the product: the reduce's entry, or 0 without one. */
  function CountOf(counts: map<string, nat>, id: string): nat {
    if id in counts then counts[id] else 0
  }

  /** The reduce over the reviews' product ids, as a map from id to count. */
  function Tally(ids: seq<string>): (counts: map<string, nat>)
    ensures forall id :: id in counts <==> id in ids
    ensures forall id :: CountOf(counts, id) == multiset(ids)[id]
  {
    if ids == [] then map[]
    else
      var last := ids[|ids| - 1];
      var before := Tally(ids[..|ids| - 1]);
      assert ids == ids[..|ids| - 1] + [last];
      before[last := CountOf(before, last) + 1]
  }

  /** The product query's rows, newest first and filtered, each with its review count and
      the fixed rate of 100; a failed product query is a 500, a failed review query only
      leaves every count at 0. */
  function ProductsResponse(rows: Result<seq<Product>, string>, reviews: Result<seq<string>, string>,
                            q: Option<string>, category: Option<string>, brand: Option<string>): Result<seq<Listed>, Failure> {
    match rows
    case Err(e) => Err(Failure(ServerError, e))
    case Ok(ps) =>
      var counts := Tally(if reviews.Ok? then reviews.value else []);
      Ok(WithCounts(NewestFirstOrder(Filter(ps, q, category, brand)), counts))
  }

  /** The map step: each row with its count and the rate of 100. */
  function WithCounts(ps: seq<Product>, counts: map<string, nat>): (r: seq<Listed>)
    ensures |r| == |ps|
    ensures forall i :: 0 <= i < |ps| ==> r[i] == Listed(ps[i], CountOf(counts, ps[i].id), 100)
  {
    seq(|ps|, i requires 0 <= i < |ps| => Listed(ps[i], CountOf(counts, ps[i].id), 100))
  }

  function Rows(ls: seq<Listed>): (ps: seq<Product>)
    ensures |ps| == |ls| && forall i :: 0 <= i < |ls| ==> ps[i] == ls[i].product
  {
    seq(|ls|, i requires 0 <= i < |ls| => ls[i].product)
  }

  /** The reduce: one pass over the reviews, adding one to the entry of each review's product. */
  method CountReviews(ids: seq<string>) returns (counts: map<string, nat>)
    ensures counts == Tally(ids)
  {
    counts := map[];
    for i := 0 to |ids|
      invariant counts == Tally(ids[..i])
    {
      assert ids[..i + 1][..i] == ids[..i];
      counts := counts[ids[i] := CountOf(counts, ids[i]) + 1];
    }
    assert ids[..|ids|] == ids;
  }

  /** The route handler. */
  method GetProducts(rows: Result<seq<Product>, string>, reviews: Result<seq<string>, string>,
                     q: Option<string>, category: Option<string>, brand: Option<string>)
    returns (r: Result<seq<Listed>, Failure>)
    ensures r == ProductsResponse(rows, reviews, q, category, brand)
  {
    if rows.Err? {
      return Err(Failure(ServerError, rows.error));
    }
    var counts := CountReviews(if reviews.Ok? then reviews.value else []);
    var data := NewestFirstOrder(Filter(rows.value, q, category, brand));
    var out: seq<Listed> := [];
    for i := 0 to |data|
      invariant |out| == i
      invariant forall k :: 0 <= k < i ==> out[k] == Listed(data[k], CountOf(counts, data[k].id), 100)
    {
      out := out + [Listed(data[i], CountOf(counts, data[i].id), 100)];
    }
    assert out == WithCounts(data, counts);
    r := Ok(out);
  }

  /** A failed product query is a 500 carrying the query's message. */
  lemma ProductsFailure(rows: Result<seq<Product>, string>, reviews: Result<seq<string>, string>,
                        q: Option<string>, category: Option<string>, brand: Option<string>)
    requires rows.Err?
    ensures ProductsResponse(rows, reviews, q, category, brand) == Err(Failure(500, rows.error))
  {
  }

  /** The response lists the wanted rows, each once per time it was returned, newest first. */
  lemma ProductsRowsSpec(rows: Result<seq<Product>, string>, reviews: Result<seq<string>, string>,
                         q: Option<string>, category: Option<string>, brand: Option<string>)
    requires rows.Ok?
    ensures ProductsResponse(rows, reviews, q, category, brand).Ok?
    ensures var ps := Rows(ProductsResponse(rows, reviews, q, category, brand).value);
      && NewestFirst(ps)
      && multiset(ps) == multiset(Filter(rows.value, q, category, brand))
      && forall p :: p in ps <==> p in rows.value && Wanted(p, q, category, brand)
  {
    var f := Filter(rows.value, q, category, brand);
    var counts := Tally(if reviews.Ok? then reviews.value else []);
    var selected := NewestFirstOrder(f);
    NewestFirstOrderSorted(f);
    var ps := Rows(ProductsResponse(rows, reviews, q, category, brand).value);
    assert ps == selected;
    forall p ensures p in ps <==> p in f {
      assert p in ps <==> p in multiset(ps);
      assert p in f <==> p in multiset(f);
    }
  }

  /** Each entry counts the reviews naming its product (0 when the review query failed),
      and its rate is 100. */
  lemma ProductsCountsSpec(rows: Result<seq<Product>, string>, reviews: Result<seq<string>, string>,
                           q: Option<string>, category: Option<string>, brand: Option<string>)
    requires rows.Ok?
    ensures var r := ProductsResponse(rows, reviews, q, category, brand);
      && r.Ok?
      && forall i :: 0 <= i < |r.value| ==>
           && r.value[i].positiveRate == 100
           && r.value[i].reviewCount == (if reviews.Ok? then multiset(reviews.value)[r.value[i].product.id] else 0)
  {
  }

  // ---------------------------------------------------------------- the facet routes

  /** GET /api/channels: the distinct channel names, empty ones dropped, sorted. */
  function ChannelsResponse(rows: Result<seq<Option<string>>, string>): (r: Result<seq<string>, Failure>)
    ensures rows.Err? ==> r == Err(Failure(500, rows.error))
    ensures rows.Ok? ==> r.Ok? && Sorted(r.value) && NoDup(r.value)
    ensures rows.Ok? ==> forall v :: v in r.value <==> v != "" && Some(v) in rows.value
  {
    match rows
    case Err(e) => Err(Failure(ServerError, e))
    case Ok(names) => Ok(SortedFacet(names))
  }

  /** GET /api/categories and GET /api/brands, the same code on different columns: the
      distinct values, empty ones dropped, in the order they first occur. */
  function FacetResponse(rows: Result<seq<Option<string>>, string>): (r: Result<seq<string>, Failure>)
    ensures rows.Err? ==> r == Err(Failure(500, rows.error))
    ensures rows.Ok? ==> r.Ok? && NoDup(r.value)
    ensures rows.Ok? ==> forall v :: v in r.value <==> v != "" && Some(v) in rows.value
  {
    match rows
    case Err(e) => Err(Failure(ServerError, e))
    case Ok(values) => Ok(Facet(values))
  }

  /** GET /api/categories, on the rows' category column. */
  function CategoriesResponse(rows: Result<seq<Option<string>>, string>): Result<seq<string>, Failure> {
    FacetResponse(rows)
  }

  /** GET /api/brands, on the rows' brand column. */
  function BrandsResponse(rows: Result<seq<Option<string>>, string>): Result<seq<string>, Failure> {
    FacetResponse(rows)
  }

  /** Categories and brands are not sorted: they come in the order of their first row. */
  lemma FacetRoutesKeepFirstOrder(rows: seq<Option<string>>)
    ensures var c := FacetResponse(Ok(rows)).value;
      forall i, j :: 0 <= i < j < |c| ==> FirstIndex(rows, Some(c[i])) < FirstIndex(rows, Some(c[j]))
  {
    FacetKeepsFirstOrder(rows);
  }

  /** The channel list does not depend on the order or repetition of the rows. */
  lemma ChannelsOrderFree(rows: seq<Option<string>>, others: seq<Option<string>>)
    requires forall x :: x in rows <==> x in others
    ensures ChannelsResponse(Ok(rows)) == ChannelsResponse(Ok(others))
  {
    SortedFacetOrderFree(rows, others);
  }
}
