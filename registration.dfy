/** Registering the products extracted from one video (backend/register_yt_cosme.py): the
    video, each product and one review per product and video are added only when absent,
    so running the registration again adds nothing. */
module Registration {
  import opened Wrappers
  import opened Models
  import opened VideoUrls

  /** One entry of the extracted-products file; the name is required, the rest optional. */
  datatype Item = Item(name: string, brand: Option<string>, category: Option<string>,
                       features: Option<string>, timestampSeconds: Option<int>)

  const DefaultSummary: string := "動画で紹介された商品です。"

  /** The id generator: given the table's name and its row count when a row is added. */
  type IdSource = (string, nat) -> string

  /** The placeholder row for a video registered by id alone. */
  function VideoRow(id: string, now: int): (v: Video)
    ensures v.id == id
  {
    Video(id, Some("YouTube Video (" + id + ")"), Some("YouTube Channel"), Some(now),
          Some("https://img.youtube.com/vi/" + id + "/maxresdefault.jpg"))
  }

  /** The video is stored, added when no video has its id. */
  function EnsureVideo(t: Tables, id: string, now: int): (r: Tables)
    ensures HasVideo(r.videos, id)
    ensures r.products == t.products && r.reviews == t.reviews
    ensures HasVideo(t.videos, id) ==> r == t
    ensures !HasVideo(t.videos, id) ==> r.videos == t.videos + [VideoRow(id, now)]
  {
    if HasVideo(t.videos, id) then t
    else
      var vs := t.videos + [VideoRow(id, now)];
      assert vs[|t.videos|].id == id;
      t.(videos := vs)
  }

  /** The first product with exactly this name. */
  function ProductIndex(ps: seq<Product>, name: string): (k: Option<nat>)
    ensures k.Some? ==> k.value < |ps| && ps[k.value].name == Some(name)
                        && forall j :: 0 <= j < k.value ==> ps[j].name != Some(name)
    ensures k.None? ==> forall j :: 0 <= j < |ps| ==> ps[j].name != Some(name)
  {
    if ps == [] then None
    else if ps[0].name == Some(name) then Some(0)
    else match ProductIndex(ps[1..], name)
      case None => None
      case Some(k) => Some(k + 1)
  }

  predicate HasReview(rs: seq<Review>, productId: string, videoId: string) {
    exists r :: r in rs && r.productId == productId && r.videoId == videoId
  }

  /** The review a registration adds: positive, summarised by the item's features or the
      default text, at the item's time or 0. */
  function NewReview(id: string, productId: string, videoId: string, item: Item, now: int): (r: Review)
    ensures r.productId == productId && r.videoId == videoId
    ensures r.sentiment == Some("positive")
    ensures r.summary == Some(if Truthy(item.features) then item.features.value else DefaultSummary)
    ensures r.timestampSeconds == item.timestampSeconds.GetOr(0)
  {
    Review(id, productId, videoId, item.timestampSeconds.GetOr(0), Some("positive"),
           Some(if Truthy(item.features) then item.features.value else DefaultSummary), now)
  }

  /** The product of an item: the first with its name, or a new one appended. */
  function WithProduct(t: Tables, item: Item, now: int, uuid: IdSource): (Tables, string) {
    match ProductIndex(t.products, item.name)
    case Some(k) => (t, t.products[k].id)
    case None =>
      var p := NewProduct(uuid("products", |t.products|), Some(item.name), item.brand, item.category, now);
      (t.(products := t.products + [p]), p.id)
  }

  /** One item registered against the video. */
  function RegisterItem(t: Tables, videoId: string, item: Item, now: int, uuid: IdSource): Tables {
    var (t1, productId) := WithProduct(t, item, now, uuid);
    if HasReview(t1.reviews, productId, videoId) then t1
    else t1.(reviews := t1.reviews + [NewReview(uuid("reviews", |t1.reviews|), productId, videoId, item, now)])
  }

  /** The items registered one after the other. */
  function RegisterItems(t: Tables, videoId: string, items: seq<Item>, now: int, uuid: IdSource): Tables {
    if items == [] then t
    else RegisterItem(RegisterItems(t, videoId, items[..|items| - 1], now, uuid), videoId, items[|items| - 1], now, uuid)
  }

  /** register_products: nothing without a usable video id or without the file; otherwise
      the video, then each item. */
  function Registered(t: Tables, url: ParsedUrl, file: Option<seq<Item>>, now: int, uuid: IdSource): Tables {
    match UsableVideoId(url)
    case None => t
    case Some(id) =>
      match file
      case None => t
      case Some(items) => RegisterItems(EnsureVideo(t, id, now), id, items, now, uuid)
  }

  // ---------------------------------------------------------------- the script

  /** One item: look the product up by name, add it if absent, then add the review if absent. */
  method RegisterOne(db: Store, videoId: string, item: Item, now: int, uuid: IdSource)
    modifies db
    ensures db.Snapshot() == RegisterItem(old(db.Snapshot()), videoId, item, now, uuid)
  {
    var found := ProductIndex(db.products, item.name);
    var productId: string;
    if found.None? {
      var p := NewProduct(uuid("products", |db.products|), Some(item.name), item.brand, item.category, now);
      db.products := db.products + [p];
      productId := p.id;
    } else {
      productId := db.products[found.value].id;
    }
    if !HasReview(db.reviews, productId, videoId) {
      db.reviews := db.reviews + [NewReview(uuid("reviews", |db.reviews|), productId, videoId, item, now)];
    }
  }

  /** Registering one more item of the list is one more RegisterItem. */
  lemma RegisterItemsStep(t: Tables, videoId: string, items: seq<Item>, i: nat, now: int, uuid: IdSource)
    requires i < |items|
    ensures RegisterItems(t, videoId, items[..i + 1], now, uuid)
            == RegisterItem(RegisterItems(t, videoId, items[..i], now, uuid), videoId, items[i], now, uuid)
  {
    assert items[..i + 1][..i] == items[..i];
  }

  method RegisterProducts(db: Store, url: ParsedUrl, file: Option<seq<Item>>, now: int, uuid: IdSource)
    modifies db
    ensures db.Snapshot() == Registered(old(db.Snapshot()), url, file, now, uuid)
  {
    var videoId := UsableVideoId(url);
    if videoId.None? || file.None? {
      return;
    }
    var id := videoId.value;
    var items := file.value;
    if !HasVideo(db.videos, id) {
      db.videos := db.videos + [VideoRow(id, now)];
    }
    ghost var start := db.Snapshot();
    assert start == EnsureVideo(old(db.Snapshot()), id, now);
    for i := 0 to |items|
      invariant db.Snapshot() == RegisterItems(start, id, items[..i], now, uuid)
    {
      RegisterItemsStep(start, id, items, i, now, uuid);
      RegisterOne(db, id, items[i], now, uuid);
    }
    assert items[..|items|] == items;
  }

  // ---------------------------------------------------------------- properties

  /** Without a usable video id, or without the file, the tables are left as they were. */
  lemma NothingWithoutVideoOrFile(t: Tables, url: ParsedUrl, file: Option<seq<Item>>, now: int, uuid: IdSource)
    ensures UsableVideoId(url).None? ==> Registered(t, url, file, now, uuid) == t
    ensures file.None? ==> Registered(t, url, file, now, uuid) == t
  {
  }

  /** The item's product is found by its name and has a review of the video. */
  predicate Done(t: Tables, videoId: string, item: Item) {
    var k := ProductIndex(t.products, item.name);
    k.Some? && HasReview(t.reviews, t.products[k.value].id, videoId)
  }

  /** Adding rows at the end does not change the first product with a name. */
  lemma ProductIndexAppend(ps: seq<Product>, p: Product, name: string)
    ensures ProductIndex(ps, name).Some? ==> ProductIndex(ps + [p], name) == ProductIndex(ps, name)
    ensures ProductIndex(ps, name).None? && p.name == Some(name) ==> ProductIndex(ps + [p], name) == Some(|ps|)
  {
    var a := ProductIndex(ps, name);
    var qs := ps + [p];
    if a.Some? {
      assert forall j :: 0 <= j <= a.value ==> qs[j] == ps[j];
      ProductIndexIsFirst(qs, name, a.value);
    } else if p.name == Some(name) {
      assert forall j :: 0 <= j < |ps| ==> qs[j] == ps[j];
      ProductIndexIsFirst(qs, name, |ps|);
    }
  }

  /** The first position holding the name is the one the lookup finds. */
  lemma {:induction false} ProductIndexIsFirst(ps: seq<Product>, name: string, k: nat)
    requires k < |ps| && ps[k].name == Some(name)
    requires forall j :: 0 <= j < k ==> ps[j].name != Some(name)
    ensures ProductIndex(ps, name) == Some(k)
  {
    if k > 0 {
      assert forall j :: 0 <= j < k - 1 ==> ps[1..][j] == ps[j + 1];
      ProductIndexIsFirst(ps[1..], name, k - 1);
    }
  }

  /** Registering an item only appends rows. */
  lemma RegisterItemAppends(t: Tables, videoId: string, item: Item, now: int, uuid: IdSource)
    ensures var r := RegisterItem(t, videoId, item, now, uuid);
      && t.products <= r.products && |r.products| <= |t.products| + 1
      && t.reviews <= r.reviews && |r.reviews| <= |t.reviews| + 1
      && r.videos == t.videos
      && (|r.products| == |t.products| + 1 <==> ProductIndex(t.products, item.name).None?)
  {
  }

  /** After an item is registered it is done, and items done before stay done. */
  lemma RegisterItemDone(t: Tables, videoId: string, item: Item, other: Item, now: int, uuid: IdSource)
    ensures Done(RegisterItem(t, videoId, item, now, uuid), videoId, item)
    ensures Done(t, videoId, other) ==> Done(RegisterItem(t, videoId, item, now, uuid), videoId, other)
  {
    var r := RegisterItem(t, videoId, item, now, uuid);
    var (t1, productId) := WithProduct(t, item, now, uuid);
    var k := ProductIndex(t.products, item.name);
    if k.None? {
      var p := NewProduct(uuid("products", |t.products|), Some(item.name), item.brand, item.category, now);
      ProductIndexAppend(t.products, p, item.name);
      ProductIndexAppend(t.products, p, other.name);
    }
    assert ProductIndex(t1.products, item.name).Some?;
    assert t1.products[ProductIndex(t1.products, item.name).value].id == productId;
    if !HasReview(t1.reviews, productId, videoId) {
      var added := NewReview(uuid("reviews", |t1.reviews|), productId, videoId, item, now);
      assert added in r.reviews;
    }
    if Done(t, videoId, other) {
      var j := ProductIndex(t.products, other.name).value;
      var w :| w in t.reviews && w.productId == t.products[j].id && w.videoId == videoId;
      assert w in r.reviews;
      assert r.products[j] == t.products[j];
    }
  }

  /** An item already done changes nothing. */
  lemma RegisterItemDoneNoop(t: Tables, videoId: string, item: Item, now: int, uuid: IdSource)
    requires Done(t, videoId, item)
    ensures RegisterItem(t, videoId, item, now, uuid) == t
  {
  }

  lemma {:induction false} RegisterItemsDone(t: Tables, videoId: string, items: seq<Item>, now: int, uuid: IdSource)
    ensures forall x :: x in items ==> Done(RegisterItems(t, videoId, items, now, uuid), videoId, x)
    ensures RegisterItems(t, videoId, items, now, uuid).videos == t.videos
  {
    if items != [] {
      var init := items[..|items| - 1];
      var last := items[|items| - 1];
      RegisterItemsDone(t, videoId, init, now, uuid);
      var mid := RegisterItems(t, videoId, init, now, uuid);
      RegisterItemAppends(mid, videoId, last, now, uuid);
      forall x | x in items ensures Done(RegisterItems(t, videoId, items, now, uuid), videoId, x) {
        RegisterItemDone(mid, videoId, last, x, now, uuid);
        if x != last {
          assert x in init by {
            var i :| 0 <= i < |items| && items[i] == x;
            assert init[i] == x;
          }
        }
      }
    }
  }

  lemma {:induction false} RegisterItemsNoop(t: Tables, videoId: string, items: seq<Item>, now: int, uuid: IdSource)
    requires forall x :: x in items ==> Done(t, videoId, x)
    ensures RegisterItems(t, videoId, items, now, uuid) == t
  {
    if items != [] {
      var init := items[..|items| - 1];
      assert forall x :: x in init ==> x in items;
      RegisterItemsNoop(t, videoId, init, now, uuid);
      RegisterItemDoneNoop(t, videoId, items[|items| - 1], now, uuid);
    }
  }

  /** Running the registration a second time on the same link and file, at any time and
      with any ids, leaves the tables as the first run left them. */
  lemma RegisterTwice(t: Tables, url: ParsedUrl, file: Option<seq<Item>>, now: int, uuid: IdSource,
                      later: int, uuid2: IdSource)
    ensures var once := Registered(t, url, file, now, uuid);
      Registered(once, url, file, later, uuid2) == once
  {
    if UsableVideoId(url).Some? && file.Some? {
      var id := UsableVideoId(url).value;
      var items := file.value;
      var start := EnsureVideo(t, id, now);
      var once := RegisterItems(start, id, items, now, uuid);
      RegisterItemsDone(start, id, items, now, uuid);
      assert HasVideo(once.videos, id);
      assert EnsureVideo(once, id, later) == once;
      RegisterItemsNoop(once, id, items, later, uuid2);
    }
  }

  /** The registration only appends rows, adds at most the one video, and every review it
      adds is a positive review of that video. */
  lemma {:induction false} RegisterItemsAppend(t: Tables, videoId: string, items: seq<Item>, now: int, uuid: IdSource)
    ensures var r := RegisterItems(t, videoId, items, now, uuid);
      && t.products <= r.products && t.reviews <= r.reviews && r.videos == t.videos
      && forall i :: |t.reviews| <= i < |r.reviews| ==>
           r.reviews[i].videoId == videoId && r.reviews[i].sentiment == Some("positive")
  {
    if items != [] {
      var init := items[..|items| - 1];
      RegisterItemsAppend(t, videoId, init, now, uuid);
      var mid := RegisterItems(t, videoId, init, now, uuid);
      RegisterItemAppends(mid, videoId, items[|items| - 1], now, uuid);
      var r := RegisterItems(t, videoId, items, now, uuid);
      forall i | |t.reviews| <= i < |r.reviews|
        ensures r.reviews[i].videoId == videoId && r.reviews[i].sentiment == Some("positive")
      {
        if i < |mid.reviews| {
          assert r.reviews[i] == mid.reviews[i];
        }
      }
    }
  }
}
