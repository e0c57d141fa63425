/** The ingestion of one video (process_video_item in backend/batch_processor.py): the
    rules that skip a video, the stored video row, and one review per product the language
    model names, matched against the catalog or added to it. The subtitle download, the
    model's analysis, the Amazon page, the clock and the generated row ids are parameters. */
module VideoIngest {
  import opened Wrappers
  import opened Text
  import opened Models
  import opened NameMatching
  import Enrichment

  /** The video metadata the ingestion reads (`description` may be absent). */
  datatype Snippet = Snippet(
    title: string,
    channelTitle: string,
    description: Option<string>,
    publishedAt: string,
    thumbnailUrl: string)

  /** One product the model found in a video. Absent keys, and keys holding JSON null, are None. */
  datatype Finding = Finding(
    productName: Option<string>,
    brandName: Option<string>,
    category: Option<string>,
    timestampSeconds: Option<int>,
    sentiment: Option<string>,
    summary: Option<string>)

  /** What the first Amazon search hit shows: the image source and the price text. */
  datatype Official = Official(imageSrc: Option<string>, price: Option<string>)

  /** Everything the ingestion asks of the outside world. */
  datatype Services = Services(
    nfkc: string -> string,
    ratio: (string, string) -> real,
    parseTime: string -> Option<int>,                            // datetime.fromisoformat
    transcriptOf: string -> seq<Cue>,                            // [] when none is available
    analyze: (seq<Cue>, string, string) -> Result<seq<Finding>, string>,
    official: (string, Option<string>) -> Official,              // the Amazon search
    details: Product -> Result<Enrichment.Reply, string>,        // enrich_new_product's request
    dumps: seq<string> -> string,
    productId: nat -> string,                                    // the id of the n-th product row
    reviewId: nat -> string,                                     // the id of the n-th review row
    now: int)

  /** How a call ended. */
  datatype ItemOutcome = AlreadyStored | NoText | AnalysisFailed | NothingFound | Saved

  /** The stand-in transcript for a video without subtitles but with a description. */
  const NoSubtitles: seq<Cue> := [Cue("（字幕なし）", 0, 0)]

  /** The published time: the text with "Z" written as "+00:00", parsed; the current time
      when it does not parse. */
  function PublishedAt(sv: Services, text: string): int {
    sv.parseTime(ReplaceAll(text, "Z", "+00:00")).GetOr(sv.now)
  }

  /** The video row stored for a snippet. */
  function VideoRow(sv: Services, videoId: string, snippet: Snippet): (v: Video)
    ensures v.id == videoId && v.title == Some(snippet.title)
    ensures v.channelName == Some(snippet.channelTitle) && v.thumbnailUrl == Some(snippet.thumbnailUrl)
  {
    Video(videoId, Some(snippet.title), Some(snippet.channelTitle),
          Some(PublishedAt(sv, snippet.publishedAt)), Some(snippet.thumbnailUrl))
  }

  /** The review row for a finding: timestamp 0, sentiment "neutral" and summary "" when the
      model left them out. */
  function ReviewRow(sv: Services, id: string, productId: string, videoId: string, f: Finding): Review {
    Review(id, productId, videoId, f.timestampSeconds.GetOr(0),
           Some(f.sentiment.GetOr("neutral")), Some(f.summary.GetOr("")), sv.now)
  }

  /** The image of the first search hit, kept only when it is an http(s) link; "" otherwise. */
  function OfficialImage(o: Official): (r: string)
    ensures r == "" || "http" <= r
  {
    if o.imageSrc.Some? && "http" <= o.imageSrc.value then o.imageSrc.value else ""
  }

  /** enrich_new_product: on a decoded reply its truthy description, features list,
      ingredients, volume and directions replace the product's; on any failure the product
      stays as it is. */
  function EnrichedNew(p: Product, reply: Result<Enrichment.Reply, string>,
                       dumps: seq<string> -> string): (q: Product)
    ensures q.id == p.id && q.name == p.name && q.brand == p.brand && q.category == p.category
    ensures q.imageUrl == p.imageUrl && q.price == p.price && q.createdAt == p.createdAt
    ensures reply.Err? ==> q == p
  {
    match reply
    case Err(_) => p
    case Ok(data) =>
      var c := Enrichment.Copied(data, dumps);
      p.(description := if Enrichment.Description in c then Some(c[Enrichment.Description]) else p.description,
         features := if Enrichment.Features in c then Some(c[Enrichment.Features]) else p.features,
         ingredients := if Enrichment.Ingredients in c then Some(c[Enrichment.Ingredients]) else p.ingredients,
         volume := if Enrichment.Volume in c then Some(c[Enrichment.Volume]) else p.volume,
         howToUse := if Enrichment.HowToUse in c then Some(c[Enrichment.HowToUse]) else p.howToUse)
  }

  /** The product row added for a finding no existing product matches: the model's name,
      brand and category, the search hit's image and price, then the generated details
      unless enrichment is switched off. */
  function NewProductRow(sv: Services, id: string, f: Finding, skipEnrich: bool): (p: Product)
    requires f.productName.Some?
    ensures p.id == id && p.name == f.productName && p.brand == f.brandName && p.category == f.category
    ensures p.createdAt == sv.now
  {
    var o := sv.official(f.productName.value, f.brandName);
    var added := NewProduct(id, f.productName, f.brandName, f.category, sv.now)
                   .(imageUrl := Some(OfficialImage(o)), price := o.price);
    if skipEnrich then added else EnrichedNew(added, sv.details(added), sv.dumps)
  }

  /** The effect of one finding on the tables: none without a product name; otherwise one
      review, for the matching product or for a product added at the end. */
  function SaveFinding(t: Tables, sv: Services, videoId: string, f: Finding, skipEnrich: bool): Tables {
    if !Truthy(f.productName) then t
    else match MatchOf(sv.nfkc, sv.ratio, t.products, f.productName, f.brandName)
      case Some(p) =>
        t.(reviews := t.reviews + [ReviewRow(sv, sv.reviewId(|t.reviews|), p.id, videoId, f)])
      case None =>
        var np := NewProductRow(sv, sv.productId(|t.products|), f, skipEnrich);
        t.(products := t.products + [np],
           reviews := t.reviews + [ReviewRow(sv, sv.reviewId(|t.reviews|), np.id, videoId, f)])
  }

  /** The findings saved in order. */
  function SaveAll(t: Tables, sv: Services, videoId: string, fs: seq<Finding>, skipEnrich: bool): Tables {
    if fs == [] then t
    else SaveFinding(SaveAll(t, sv, videoId, fs[..|fs| - 1], skipEnrich), sv, videoId, fs[|fs| - 1], skipEnrich)
  }

  /** The subtitles the analysis is given: the downloaded ones, the stand-in when there are
      none but a description, and None (the video is skipped) when there is neither. */
  function TextFor(sv: Services, videoId: string, snippet: Snippet): Option<seq<Cue>> {
    var transcript := sv.transcriptOf(videoId);
    if transcript != [] then Some(transcript)
    else if snippet.description.GetOr("") != "" then Some(NoSubtitles)
    else None
  }

  /** process_video_item as a function of the tables before it. */
  function AfterItem(t: Tables, sv: Services, videoId: string, snippet: Snippet, skipEnrich: bool): (Tables, ItemOutcome) {
    if HasVideo(t.videos, videoId) then (t, AlreadyStored)
    else match TextFor(sv, videoId, snippet)
      case None => (t, NoText)
      case Some(transcript) =>
        match sv.analyze(transcript, snippet.description.GetOr(""), snippet.title)
        case Err(_) => (t, AnalysisFailed)
        case Ok(findings) =>
          if findings == [] then (t, NothingFound)
          else
            var withVideo := t.(videos := t.videos + [VideoRow(sv, videoId, snippet)]);
            (SaveAll(withVideo, sv, videoId, findings, skipEnrich), Saved)
  }

  // ---------------------------------------------------------------- the procedure

  /** process_video_item. */
  method ProcessVideoItem(db: Store, sv: Services, videoId: string, snippet: Snippet, skipEnrich: bool)
    returns (outcome: ItemOutcome)
    modifies db
    ensures (db.Snapshot(), outcome) == AfterItem(old(db.Snapshot()), sv, videoId, snippet, skipEnrich)
  {
    var title := snippet.title;
    var description := snippet.description.GetOr("");
    var publishedAt := PublishedAt(sv, snippet.publishedAt);
    if HasVideo(db.videos, videoId) {
      return AlreadyStored;
    }
    var transcript := sv.transcriptOf(videoId);
    if transcript == [] {
      if description != "" {
        transcript := NoSubtitles;
      } else {
        return NoText;
      }
    }
    var analysis := sv.analyze(transcript, description, title);
    if analysis.Err? {
      return AnalysisFailed;
    }
    var results := analysis.value;
    if results == [] {
      return NothingFound;
    }
    db.videos := db.videos + [Video(videoId, Some(title), Some(snippet.channelTitle), Some(publishedAt),
                                    Some(snippet.thumbnailUrl))];
    ghost var start := db.Snapshot();
    for k := 0 to |results|
      invariant db.Snapshot() == SaveAll(start, sv, videoId, results[..k], skipEnrich)
    {
      assert results[..k + 1][..k] == results[..k];
      var result := results[k];
      if !Truthy(result.productName) {
        continue;
      }
      var product := FindMatchingProduct(sv.nfkc, sv.ratio, db.products, result.productName, result.brandName);
      var productId: string;
      if product.None? {
        var row := NewProductRow(sv, sv.productId(|db.products|), result, skipEnrich);
        db.products := db.products + [row];
        productId := row.id;
      } else {
        productId := product.value.id;
      }
      db.reviews := db.reviews + [ReviewRow(sv, sv.reviewId(|db.reviews|), productId, videoId, result)];
    }
    assert results[..|results|] == results;
    return Saved;
  }

  // ---------------------------------------------------------------- what it guarantees

  /** The number of findings with a product name. */
  function Named(fs: seq<Finding>): nat {
    if fs == [] then 0 else Named(fs[..|fs| - 1]) + (if Truthy(fs[|fs| - 1].productName) then 1 else 0)
  }

  /** The reviews from index `from` on belong to the video and to a stored product. */
  ghost predicate Linked(t: Tables, from: nat, videoId: string) {
    forall k :: from <= k < |t.reviews| ==>
      t.reviews[k].videoId == videoId && exists j :: 0 <= j < |t.products| && t.products[j].id == t.reviews[k].productId
  }

  /** Saving one finding only appends, one review when it names a product. */
  lemma SaveFindingAppends(m: Tables, sv: Services, videoId: string, f: Finding, skipEnrich: bool, from: nat)
    requires Linked(m, from, videoId)
    ensures var u := SaveFinding(m, sv, videoId, f, skipEnrich);
      var named := if Truthy(f.productName) then 1 else 0;
      && u.videos == m.videos
      && m.products <= u.products && m.reviews <= u.reviews
      && |u.reviews| == |m.reviews| + named
      && |u.products| <= |m.products| + named
      && Linked(u, from, videoId)
  {
    var u := SaveFinding(m, sv, videoId, f, skipEnrich);
    if Truthy(f.productName) {
      assert |m.products| <= |u.products| && |u.reviews| == |m.reviews| + 1;
      forall k | from <= k < |m.reviews|
        ensures u.reviews[k].videoId == videoId
        ensures exists j :: 0 <= j < |u.products| && u.products[j].id == u.reviews[k].productId
      {
        assert m.reviews[k].videoId == videoId
          && exists j :: 0 <= j < |m.products| && m.products[j].id == m.reviews[k].productId;
        var j :| 0 <= j < |m.products| && m.products[j].id == m.reviews[k].productId;
        assert u.products[j] == m.products[j] && u.reviews[k] == m.reviews[k];
      }
      MatchOfMember(sv.nfkc, sv.ratio, m.products, f.productName, f.brandName);
      match MatchOf(sv.nfkc, sv.ratio, m.products, f.productName, f.brandName)
      case Some(p) =>
        var j :| 0 <= j < |m.products| && m.products[j] == p;
        assert u.reviews[|m.reviews|].productId == u.products[j].id;
      case None =>
        assert u.reviews[|m.reviews|].productId == u.products[|m.products|].id;
    }
  }

  /** Saving findings only appends: the existing products, videos and reviews stay as they
      are, exactly one review is added per named finding, at most one product per named
      finding, and every new review belongs to the video and to a stored product. */
  lemma {:induction false} SaveAllAppends(t: Tables, sv: Services, videoId: string, fs: seq<Finding>, skipEnrich: bool)
    ensures var u := SaveAll(t, sv, videoId, fs, skipEnrich);
      && u.videos == t.videos
      && t.products <= u.products && t.reviews <= u.reviews
      && |u.reviews| == |t.reviews| + Named(fs)
      && |u.products| <= |t.products| + Named(fs)
      && Linked(u, |t.reviews|, videoId)
  {
    if fs != [] {
      var init := fs[..|fs| - 1];
      SaveAllAppends(t, sv, videoId, init, skipEnrich);
      SaveFindingAppends(SaveAll(t, sv, videoId, init, skipEnrich), sv, videoId, fs[|fs| - 1], skipEnrich, |t.reviews|);
    }
  }

  /** A finding without a product name changes nothing; a finding whose normalised name
      equals a stored product's adds a review for a product of that name and no product. */
  lemma SaveFindingCases(t: Tables, sv: Services, videoId: string, f: Finding, skipEnrich: bool)
    ensures !Truthy(f.productName) ==> SaveFinding(t, sv, videoId, f, skipEnrich) == t
    ensures var q := NormalizeName(sv.nfkc, f.productName);
      Truthy(f.productName) && q != "" &&
      (exists j :: 0 <= j < |t.products| && NormalizeName(sv.nfkc, t.products[j].name) == q) ==>
        var u := SaveFinding(t, sv, videoId, f, skipEnrich);
        && u.products == t.products
        && |u.reviews| == |t.reviews| + 1
        && exists j :: 0 <= j < |t.products| && t.products[j].id == u.reviews[|t.reviews|].productId
                       && NormalizeName(sv.nfkc, t.products[j].name) == q
  {
    var q := NormalizeName(sv.nfkc, f.productName);
    if Truthy(f.productName) && q != ""
       && exists j :: 0 <= j < |t.products| && NormalizeName(sv.nfkc, t.products[j].name) == q {
      var keys := Keys(sv.nfkc, t.products);
      var j :| 0 <= j < |t.products| && NormalizeName(sv.nfkc, t.products[j].name) == q;
      assert keys[j] == q;
      FirstExactIsFirst(keys, q);
      var k := FirstExact(keys, q).value;
      assert MatchOf(sv.nfkc, sv.ratio, t.products, f.productName, f.brandName) == Some(t.products[k]);
      assert NormalizeName(sv.nfkc, t.products[k].name) == q;
    }
  }

  /** A new review carries the model's values where given and the defaults otherwise. */
  lemma ReviewDefaults(sv: Services, id: string, productId: string, videoId: string, f: Finding)
    ensures var r := ReviewRow(sv, id, productId, videoId, f);
      && r.productId == productId && r.videoId == videoId
      && r.timestampSeconds == (if f.timestampSeconds.Some? then f.timestampSeconds.value else 0)
      && r.sentiment == Some(if f.sentiment.Some? then f.sentiment.value else "neutral")
      && r.summary == Some(if f.summary.Some? then f.summary.value else "")
  {
  }

  /** A stored video, a video with neither subtitles nor description, a failed analysis and
      an empty one all leave the tables unchanged; otherwise the video row is added once and
      the reviews are appended after the existing ones. */
  lemma AfterItemSkips(t: Tables, sv: Services, videoId: string, snippet: Snippet, skipEnrich: bool)
    ensures var (u, outcome) := AfterItem(t, sv, videoId, snippet, skipEnrich);
      && (outcome != Saved <==> u == t)
      && (HasVideo(t.videos, videoId) ==> outcome == AlreadyStored)
      && ((!HasVideo(t.videos, videoId) && sv.transcriptOf(videoId) == [] && snippet.description.GetOr("") == "")
          ==> outcome == NoText)
      && (outcome == Saved ==>
            && u.videos == t.videos + [VideoRow(sv, videoId, snippet)]
            && !HasVideo(t.videos, videoId)
            && t.products <= u.products && t.reviews <= u.reviews)
  {
    var (u, outcome) := AfterItem(t, sv, videoId, snippet, skipEnrich);
    if outcome == Saved {
      var findings := sv.analyze(TextFor(sv, videoId, snippet).value, snippet.description.GetOr(""), snippet.title).value;
      var withVideo := t.(videos := t.videos + [VideoRow(sv, videoId, snippet)]);
      SaveAllAppends(withVideo, sv, videoId, findings, skipEnrich);
      assert u.videos != t.videos by { assert |u.videos| == |t.videos| + 1; }
    }
  }

  /** Ingesting a video a second time changes nothing. */
  lemma AfterItemTwice(t: Tables, sv: Services, videoId: string, snippet: Snippet, skipEnrich: bool)
    ensures var (u, _) := AfterItem(t, sv, videoId, snippet, skipEnrich);
      AfterItem(u, sv, videoId, snippet, skipEnrich).0 == u
  {
    var (u, outcome) := AfterItem(t, sv, videoId, snippet, skipEnrich);
    AfterItemSkips(t, sv, videoId, snippet, skipEnrich);
    if outcome == Saved {
      assert u.videos[|t.videos|].id == videoId;
      assert HasVideo(u.videos, videoId);
    }
  }
}
