/** The two entry points of the crawler that feed videos to the ingestion
    (process_urls and process_channel in backend/batch_processor.py). */
module Pipeline {
  import opened Wrappers
  import opened Models
  import opened VideoFilter
  import opened VideoIngest
  import opened VideoUrls

  // ---------------------------------------------------------------- process_urls

  /** The tables after one link: skipped when it yields no usable id or the video's details
      cannot be fetched; otherwise the video is ingested. */
  function AfterUrl(t: Tables, sv: Services, details: string -> Option<Snippet>, u: ParsedUrl,
                    mainOnly: bool): Tables
  {
    match UsableVideoId(u)
    case None => t
    case Some(id) =>
      match details(id)
      case None => t
      case Some(snippet) => AfterItem(t, sv, id, snippet, mainOnly).0
  }

  /** The links handled in order. */
  function AfterUrls(t: Tables, sv: Services, details: string -> Option<Snippet>, urls: seq<ParsedUrl>,
                     mainOnly: bool): Tables
  {
    if urls == [] then t
    else AfterUrl(AfterUrls(t, sv, details, urls[..|urls| - 1], mainOnly), sv, details, urls[|urls| - 1], mainOnly)
  }

  /** process_urls: each link's id, the video's details, then the ingestion, with the
      enrichment of new products switched off in main-only mode. */
  method ProcessUrls(db: Store, sv: Services, details: string -> Option<Snippet>, urls: seq<ParsedUrl>,
                     mainOnly: bool)
    modifies db
    ensures db.Snapshot() == AfterUrls(old(db.Snapshot()), sv, details, urls, mainOnly)
  {
    ghost var start := db.Snapshot();
    for k := 0 to |urls|
      invariant db.Snapshot() == AfterUrls(start, sv, details, urls[..k], mainOnly)
    {
      assert urls[..k + 1][..k] == urls[..k];
      var parsed := urls[k];
      var videoId: string;
      if ShortHost(parsed.hostname) {
        videoId := if parsed.path == "" then "" else parsed.path[1..];
      } else if LongHost(parsed.hostname) {
        var v := FirstParam(parsed.query, "v");
        if v.None? {
          continue;
        }
        videoId := v.value;
      } else {
        continue;
      }
      if videoId == "" {
        continue;
      }
      var videoDetails := details(videoId);
      if videoDetails.None? {
        continue;
      }
      var _ := ProcessVideoItem(db, sv, videoId, videoDetails.value, mainOnly);
    }
    assert urls[..|urls|] == urls;
  }

  /** Handling links only appends rows, and a list of links without a usable id changes
      nothing. */
  lemma {:induction false} AfterUrlsAppends(t: Tables, sv: Services, details: string -> Option<Snippet>,
                                            urls: seq<ParsedUrl>, mainOnly: bool)
    ensures var u := AfterUrls(t, sv, details, urls, mainOnly);
      t.products <= u.products && t.videos <= u.videos && t.reviews <= u.reviews
    ensures (forall k :: 0 <= k < |urls| ==> UsableVideoId(urls[k]).None?) ==>
      AfterUrls(t, sv, details, urls, mainOnly) == t
  {
    if urls != [] {
      var init := urls[..|urls| - 1];
      AfterUrlsAppends(t, sv, details, init, mainOnly);
      var m := AfterUrls(t, sv, details, init, mainOnly);
      var last := urls[|urls| - 1];
      if UsableVideoId(last).Some? && details(UsableVideoId(last).value).Some? {
        AfterItemSkips(m, sv, UsableVideoId(last).value, details(UsableVideoId(last).value).value, mainOnly);
      }
    }
  }

  /** A link whose video is already stored leaves the tables as they are. */
  lemma StoredVideoUnchanged(t: Tables, sv: Services, details: string -> Option<Snippet>, u: ParsedUrl,
                             mainOnly: bool)
    requires UsableVideoId(u).Some? && HasVideo(t.videos, UsableVideoId(u).value)
    ensures AfterUrl(t, sv, details, u, mainOnly) == t
  {
  }

  // ---------------------------------------------------------------- process_channel

  /** The counters of process_channel's report. */
  datatype Stats = Stats(total: nat, passTitle: nat, passDensity: nat, passAi: nat,
                         processed: nat, skippedExisting: nat)

  /** The counters are consistent: each stage passes at most what the one before it passed. */
  predicate Consistent(s: Stats, seen: nat) {
    && s.skippedExisting + s.passTitle <= seen
    && s.passAi <= s.passDensity <= s.passTitle
    && s.processed == s.passAi
  }

  /** The number of videos whose title and description pass stage 1. */
  function TitlePasses(videos: seq<VideoInfo>): nat {
    if videos == [] then 0
    else TitlePasses(videos[..|videos| - 1])
         + (if FilterByTitle(videos[|videos| - 1].title, videos[|videos| - 1].description) then 1 else 0)
  }

  /** One for a stage passed, none otherwise. */
  function Tally(passed: bool): nat {
    if passed then 1 else 0
  }

  /** The three stages for one video not yet stored: whether it passes the title test, the
      subtitle density (a video without subtitles passes it) and the model's verdict. With
      the title-only mode, passing the title passes all three. */
  function Stages(sv: Services, info: VideoInfo, densityThreshold: real, skipAi: bool, titleOnly: bool,
                  classify: (string, string, string) -> Result<string, string>): (bool, bool, bool)
  {
    if !FilterByTitle(info.title, info.description) then (false, false, false)
    else if titleOnly then (true, true, true)
    else
      var transcript := sv.transcriptOf(info.videoId);
      if transcript != [] && DensityOf(transcript) < densityThreshold then (true, false, false)
      else if !skipAi && !AiSaysCosme(classify(info.title, info.description, TranscriptSample(transcript)))
      then (true, true, false)
      else (true, true, true)
  }

  /** Each stage passes only what the one before it passed, the first stage is
      filter_by_title, and in title-only mode the three verdicts agree. */
  lemma StagesInOrder(sv: Services, info: VideoInfo, densityThreshold: real, skipAi: bool, titleOnly: bool,
                      classify: (string, string, string) -> Result<string, string>)
    ensures var (passTitle, passDensity, passAi) := Stages(sv, info, densityThreshold, skipAi, titleOnly, classify);
      && passTitle == FilterByTitle(info.title, info.description)
      && (passAi ==> passDensity) && (passDensity ==> passTitle)
      && (titleOnly ==> passDensity == passTitle && passAi == passTitle)
      && (!titleOnly && skipAi ==> passAi == passDensity)
  {
  }

  /** The screening as process_channel runs it, stage after stage. */
  method Screen(sv: Services, info: VideoInfo, densityThreshold: real, skipAi: bool, titleOnly: bool,
                classify: (string, string, string) -> Result<string, string>)
    returns (passTitle: bool, passDensity: bool, passAi: bool)
    ensures (passTitle, passDensity, passAi) == Stages(sv, info, densityThreshold, skipAi, titleOnly, classify)
    ensures passTitle == FilterByTitle(info.title, info.description)
    ensures passAi ==> passDensity
    ensures passDensity ==> passTitle
    ensures titleOnly ==> passDensity == passTitle && passAi == passTitle
    ensures passTitle && !titleOnly ==>
      passDensity == (sv.transcriptOf(info.videoId) == [] || DensityOf(sv.transcriptOf(info.videoId)) >= densityThreshold)
    ensures passTitle && !titleOnly && skipAi ==> passAi == passDensity
  {
    passTitle := FilterByTitle(info.title, info.description);
    passDensity, passAi := false, false;
    if !passTitle {
      return;
    }
    if titleOnly {
      return true, true, true;
    }
    var transcript := sv.transcriptOf(info.videoId);
    if transcript != [] {
      var density := TranscriptDensity(transcript);
      if density < densityThreshold {
        return;
      }
    }
    passDensity := true;
    if !skipAi {
      var sample := TranscriptSample(transcript);
      if !AiSaysCosme(classify(info.title, info.description, sample)) {
        return;
      }
    }
    passAi := true;
  }

  /** The snippet process_channel builds from a listed video for the ingestion. */
  function SnippetOf(info: VideoInfo): Snippet {
    Snippet(info.title, info.channelName, Some(info.description), info.publishedAt, info.thumbnailUrl)
  }

  /** One video of process_channel's loop, on values: a stored video only raises the skip
      count; any other raises each stage's counter by whether it passes that stage, and one
      that passes all three is ingested (with enrichment) and counted as processed. */
  function ChannelStep(t: Tables, s: Stats, sv: Services, info: VideoInfo, densityThreshold: real,
                       skipAi: bool, titleOnly: bool,
                       classify: (string, string, string) -> Result<string, string>): (Tables, Stats)
  {
    if HasVideo(t.videos, info.videoId) then (t, s.(skippedExisting := s.skippedExisting + 1))
    else
      var (passTitle, passDensity, passAi) := Stages(sv, info, densityThreshold, skipAi, titleOnly, classify);
      var counted := s.(passTitle := s.passTitle + Tally(passTitle),
                        passDensity := s.passDensity + Tally(passDensity),
                        passAi := s.passAi + Tally(passAi));
      if passAi then (AfterItem(t, sv, info.videoId, SnippetOf(info), false).0,
                      counted.(processed := counted.processed + 1))
      else (t, counted)
  }

  /** The channel's videos handled in order from the given tables and counters. */
  function ChannelFold(t: Tables, s: Stats, sv: Services, videos: seq<VideoInfo>, densityThreshold: real,
                       skipAi: bool, titleOnly: bool,
                       classify: (string, string, string) -> Result<string, string>): (Tables, Stats)
  {
    if videos == [] then (t, s)
    else
      var before := ChannelFold(t, s, sv, videos[..|videos| - 1], densityThreshold, skipAi, titleOnly, classify);
      ChannelStep(before.0, before.1, sv, videos[|videos| - 1], densityThreshold, skipAi, titleOnly, classify)
  }

  /** One video of process_channel's loop. */
  method ScreenVideo(db: Store, sv: Services, info: VideoInfo, densityThreshold: real,
                     skipAi: bool, titleOnly: bool,
                     classify: (string, string, string) -> Result<string, string>,
                     s: Stats)
    returns (next: Stats)
    modifies db
    ensures (db.Snapshot(), next) ==
            ChannelStep(old(db.Snapshot()), s, sv, info, densityThreshold, skipAi, titleOnly, classify)
  {
    next := s;
    if HasVideo(db.videos, info.videoId) {
      next := next.(skippedExisting := next.skippedExisting + 1);
      return;
    }
    var passTitle, passDensity, passAi := Screen(sv, info, densityThreshold, skipAi, titleOnly, classify);
    next := next.(passTitle := next.passTitle + (if passTitle then 1 else 0),
                  passDensity := next.passDensity + (if passDensity then 1 else 0),
                  passAi := next.passAi + (if passAi then 1 else 0));
    ghost var before := db.Snapshot();
    if passAi {
      var _ := ProcessVideoItem(db, sv, info.videoId, SnippetOf(info), false);
      assert db.Snapshot() == AfterItem(before, sv, info.videoId, SnippetOf(info), false).0;
      next := next.(processed := next.processed + 1);
    }
  }

  /** One step keeps the counters consistent, raises the title count by at most the
      video's own title verdict, keeps the three counts equal in title-only mode and only
      appends rows. */
  lemma ChannelStepKeeps(t: Tables, s: Stats, seen: nat, sv: Services, info: VideoInfo, densityThreshold: real,
                         skipAi: bool, titleOnly: bool,
                         classify: (string, string, string) -> Result<string, string>)
    requires Consistent(s, seen)
    requires titleOnly ==> s.passDensity == s.passTitle == s.passAi
    ensures var (u, r) := ChannelStep(t, s, sv, info, densityThreshold, skipAi, titleOnly, classify);
      && r.total == s.total && Consistent(r, seen + 1)
      && r.passTitle <= s.passTitle + Tally(FilterByTitle(info.title, info.description))
      && (titleOnly ==> r.passDensity == r.passTitle == r.passAi)
      && t.products <= u.products && t.videos <= u.videos && t.reviews <= u.reviews
  {
    if !HasVideo(t.videos, info.videoId) {
      StagesInOrder(sv, info, densityThreshold, skipAi, titleOnly, classify);
      var (passTitle, passDensity, passAi) := Stages(sv, info, densityThreshold, skipAi, titleOnly, classify);
      var counted := s.(passTitle := s.passTitle + Tally(passTitle),
                        passDensity := s.passDensity + Tally(passDensity),
                        passAi := s.passAi + Tally(passAi));
      assert Consistent(counted.(processed := counted.processed + Tally(passAi)), seen + 1);
      if passAi {
        AfterItemSkips(t, sv, info.videoId, SnippetOf(info), false);
      }
    }
  }

  /** The whole loop keeps what one step keeps: the counters stay consistent with the
      videos seen, the title count is bounded by the videos filter_by_title accepts, and
      rows are only appended. */
  lemma {:induction false} ChannelFoldKeeps(t: Tables, s: Stats, seen: nat, sv: Services, videos: seq<VideoInfo>,
                                            densityThreshold: real, skipAi: bool, titleOnly: bool,
                                            classify: (string, string, string) -> Result<string, string>)
    requires Consistent(s, seen)
    requires titleOnly ==> s.passDensity == s.passTitle == s.passAi
    ensures var (u, r) := ChannelFold(t, s, sv, videos, densityThreshold, skipAi, titleOnly, classify);
      && r.total == s.total && Consistent(r, seen + |videos|)
      && r.passTitle <= s.passTitle + TitlePasses(videos)
      && (titleOnly ==> r.passDensity == r.passTitle == r.passAi)
      && t.products <= u.products && t.videos <= u.videos && t.reviews <= u.reviews
  {
    if videos != [] {
      var init := videos[..|videos| - 1];
      assert init + [videos[|videos| - 1]] == videos;
      ChannelFoldKeeps(t, s, seen, sv, init, densityThreshold, skipAi, titleOnly, classify);
      var (m, r) := ChannelFold(t, s, sv, init, densityThreshold, skipAi, titleOnly, classify);
      ChannelStepKeeps(m, r, seen + |init|, sv, videos[|videos| - 1], densityThreshold, skipAi, titleOnly, classify);
    }
  }

  /** A channel whose videos are all stored already changes no table and only counts
      skips. */
  lemma {:induction false} ChannelFoldAllStored(t: Tables, s: Stats, sv: Services, videos: seq<VideoInfo>,
                                                densityThreshold: real, skipAi: bool, titleOnly: bool,
                                                classify: (string, string, string) -> Result<string, string>)
    requires forall k :: 0 <= k < |videos| ==> HasVideo(t.videos, videos[k].videoId)
    ensures ChannelFold(t, s, sv, videos, densityThreshold, skipAi, titleOnly, classify).0 == t
    ensures ChannelFold(t, s, sv, videos, densityThreshold, skipAi, titleOnly, classify).1
            == s.(skippedExisting := s.skippedExisting + |videos|)
  {
    if videos != [] {
      var init, last := videos[..|videos| - 1], videos[|videos| - 1];
      assert forall k :: 0 <= k < |init| ==> init[k] == videos[k];
      ChannelFoldAllStored(t, s, sv, init, densityThreshold, skipAi, titleOnly, classify);
      var mid := s.(skippedExisting := s.skippedExisting + |init|);
      ChannelStepStored(t, mid, sv, last, densityThreshold, skipAi, titleOnly, classify);
      assert ChannelFold(t, s, sv, videos, densityThreshold, skipAi, titleOnly, classify)
             == ChannelStep(t, mid, sv, last, densityThreshold, skipAi, titleOnly, classify);
      assert mid.(skippedExisting := mid.skippedExisting + 1) == s.(skippedExisting := s.skippedExisting + |videos|);
    }
  }

  /** A stored video leaves the tables alone and only raises the skip count. */
  lemma ChannelStepStored(t: Tables, s: Stats, sv: Services, info: VideoInfo, densityThreshold: real,
                          skipAi: bool, titleOnly: bool,
                          classify: (string, string, string) -> Result<string, string>)
    requires HasVideo(t.videos, info.videoId)
    ensures ChannelStep(t, s, sv, info, densityThreshold, skipAi, titleOnly, classify).0 == t
    ensures ChannelStep(t, s, sv, info, densityThreshold, skipAi, titleOnly, classify).1
            == s.(skippedExisting := s.skippedExisting + 1)
  {
  }

  /** process_channel after the channel's videos were listed: nothing for an empty list;
      otherwise each video goes through ChannelStep from counters that start at zero with
      the total set to the number of videos. */
  method ProcessChannel(db: Store, sv: Services, videos: seq<VideoInfo>, densityThreshold: real,
                        skipAi: bool, titleOnly: bool,
                        classify: (string, string, string) -> Result<string, string>)
    returns (stats: Option<Stats>)
    modifies db
    ensures videos == [] <==> stats.None?
    ensures videos == [] ==> db.Snapshot() == old(db.Snapshot())
    ensures stats.Some? ==>
      (db.Snapshot(), stats.value) == ChannelFold(old(db.Snapshot()), Stats(|videos|, 0, 0, 0, 0, 0), sv, videos,
                                                  densityThreshold, skipAi, titleOnly, classify)
    ensures stats.Some? ==>
      && stats.value.total == |videos|
      && Consistent(stats.value, |videos|)
      && stats.value.passTitle <= TitlePasses(videos)
      && (titleOnly ==> stats.value.passDensity == stats.value.passTitle == stats.value.passAi)
    ensures old(db.products) <= db.products && old(db.videos) <= db.videos && old(db.reviews) <= db.reviews
  {
    if videos == [] {
      return None;
    }
    ghost var start := db.Snapshot();
    var s := Stats(|videos|, 0, 0, 0, 0, 0);
    for i := 0 to |videos|
      invariant (db.Snapshot(), s) == ChannelFold(start, Stats(|videos|, 0, 0, 0, 0, 0), sv, videos[..i],
                                                  densityThreshold, skipAi, titleOnly, classify)
    {
      assert videos[..i + 1][..i] == videos[..i];
      s := ScreenVideo(db, sv, videos[i], densityThreshold, skipAi, titleOnly, classify, s);
    }
    assert videos[..|videos|] == videos;
    ChannelFoldKeeps(start, Stats(|videos|, 0, 0, 0, 0, 0), 0, sv, videos, densityThreshold, skipAi, titleOnly, classify);
    return Some(s);
  }
}
