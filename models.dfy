/** The three tables of the catalog (products, videos, reviews) and the database
    session the ingestion scripts write through. */
module Models {
  import opened Wrappers

  /** A row of `products`. Nullable columns are options; `created_at` always has a value
      (the column has a default). */
  datatype Product = Product(
    id: string,
    name: Option<string>,
    brand: Option<string>,
    category: Option<string>,
    imageUrl: Option<string>,
    description: Option<string>,
    price: Option<string>,
    ingredients: Option<string>,
    volume: Option<string>,
    howToUse: Option<string>,
    features: Option<string>,      // a JSON array of strings, serialised
    amazonUrl: Option<string>,
    cosmeUrl: Option<string>,
    cosmeRating: Option<real>,
    createdAt: int)

  /** A row of `videos`; the id is the video platform's own id. */
  datatype Video = Video(
    id: string,
    title: Option<string>,
    channelName: Option<string>,
    publishedAt: Option<int>,
    thumbnailUrl: Option<string>)

  /** A row of `reviews`: one product as discussed at one point of one video. */
  datatype Review = Review(
    id: string,
    productId: string,
    videoId: string,
    timestampSeconds: int,
    sentiment: Option<string>,
    summary: Option<string>,
    createdAt: int)

  /** A product with only an id, a name, a brand and a category set. */
  function NewProduct(id: string, name: Option<string>, brand: Option<string>,
                      category: Option<string>, createdAt: int): (p: Product)
    ensures p.id == id && p.name == name && p.brand == brand && p.category == category
    ensures p.createdAt == createdAt && p.imageUrl.None? && p.description.None?
  {
    Product(id, name, brand, category, None, None, None, None, None, None, None,
            None, None, None, createdAt)
  }

  predicate HasVideo(videos: seq<Video>, id: string) {
    exists i :: 0 <= i < |videos| && videos[i].id == id
  }

  /** One subtitle cue: its text, and its start and length in milliseconds. */
  datatype Cue = Cue(text: string, startMs: int, durationMs: int)

  /** A video of a channel's upload list, as the video platform describes it. */
  datatype VideoInfo = VideoInfo(
    videoId: string,
    title: string,
    description: string,
    channelName: string,
    publishedAt: string,
    thumbnailUrl: string)

  /** The contents of the three tables at one moment. */
  datatype Tables = Tables(products: seq<Product>, videos: seq<Video>, reviews: seq<Review>)

  /** The database session: the rows as the scripts see and change them. */
  class Store {
    var products: seq<Product>
    var videos: seq<Video>
    var reviews: seq<Review>

    constructor (products: seq<Product>, videos: seq<Video>, reviews: seq<Review>)
      ensures this.products == products && this.videos == videos && this.reviews == reviews
    {
      this.products := products;
      this.videos := videos;
      this.reviews := reviews;
    }

    function Snapshot(): (t: Tables)
      reads this
      ensures t.products == products && t.videos == videos && t.reviews == reviews
    {
      Tables(products, videos, reviews)
    }
  }
}
