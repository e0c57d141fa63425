/** The three-stage video selection of the channel crawler: title keywords, the density of
    cosmetics vocabulary in the subtitles, and a yes/no question to the language model
    (filter_by_title, filter_by_transcript_density, filter_by_ai_classification and the
    statistics loop of process_channel in backend/batch_processor.py). */
module VideoFilter {
  import opened Wrappers
  import opened Text
  import opened Models

  // ---------------------------------------------------------------- stage 1: title

  const TitlePassKeywords: seq<string> := ["ベストコスメ", "ベスコス"]

  /** Some keyword, lower-cased, occurs in the text. */
  predicate AnyKeywordIn(text: string, keywords: seq<string>) {
    keywords != [] && (Contains(text, Lower(keywords[0])) || AnyKeywordIn(text, keywords[1..]))
  }

  /** filter_by_title: a keyword occurs in the lower-cased title, a space and description. */
  predicate FilterByTitle(title: string, description: string) {
    AnyKeywordIn(Lower(title + " " + description), TitlePassKeywords)
  }

  lemma {:induction false} AnyKeywordInIff(text: string, keywords: seq<string>)
    ensures AnyKeywordIn(text, keywords) <==> exists k :: 0 <= k < |keywords| && Contains(text, Lower(keywords[k]))
  {
    if keywords != [] {
      AnyKeywordInIff(text, keywords[1..]);
      assert forall k :: 1 <= k < |keywords| ==> keywords[k] == keywords[1..][k - 1];
      if exists k :: 0 <= k < |keywords| && Contains(text, Lower(keywords[k])) {
        var k :| 0 <= k < |keywords| && Contains(text, Lower(keywords[k]));
        if k > 0 {
          assert Contains(text, Lower(keywords[1..][k - 1]));
        }
      }
    }
  }

  /** Lower-casing is immaterial for these keywords: a video passes the title stage exactly
      when one of them occurs, as written, in its title, a space and its description. */
  lemma FilterByTitleIff(title: string, description: string)
    ensures FilterByTitle(title, description) <==>
      exists k :: 0 <= k < |TitlePassKeywords| && Contains(title + " " + description, TitlePassKeywords[k])
  {
    var text := title + " " + description;
    AnyKeywordInIff(Lower(text), TitlePassKeywords);
    forall k | 0 <= k < |TitlePassKeywords|
      ensures Lower(TitlePassKeywords[k]) == TitlePassKeywords[k]
      ensures Contains(Lower(text), TitlePassKeywords[k]) <==> Contains(text, TitlePassKeywords[k])
    {
      TitleKeywordCaseless(k);
      LowerCaseless(TitlePassKeywords[k]);
      LowerKeepsCaselessContains(text, TitlePassKeywords[k]);
    }
  }

  /** The title keywords hold no Latin letter. */
  lemma TitleKeywordCaseless(k: nat)
    requires k < |TitlePassKeywords|
    ensures forall i :: 0 <= i < |TitlePassKeywords[k]| ==> Caseless(TitlePassKeywords[k][i])
  {
  }

  // ---------------------------------------------------------------- stage 2: subtitle density

  const CosmeTerms: seq<string> := [
    "発色", "テクスチャ", "保湿", "乾燥", "イエベ", "ブルベ",
    "毛穴", "カバー力", "崩れ", "色味", "パケ", "円",
    "塗る", "仕上がり", "ツヤ", "マット", "下地", "ラメ",
    "パウダー", "リキッド", "ファンデ", "リップ", "アイシャドウ",
    "チーク", "マスカラ", "アイライナー", "コンシーラー",
    "プライマー", "ハイライト", "シェーディング", "ベース",
    "スキンケア", "化粧水", "乳液", "美容液", "クレンジング",
    "日焼け止め", "SPF", "UV", "くすみ", "トーンアップ",
    "フィット", "ヨレ", "テカリ", "サラサラ", "しっとり",
    "ナチュラル", "透明感", "血色", "ツヤ肌", "マット肌",
    "プチプラ", "デパコス", "コスメ", "メイク"
  ]

  /** The texts of the cues, in order. */
  function Texts(transcript: seq<Cue>): (r: seq<string>)
    ensures |r| == |transcript|
    ensures forall k :: 0 <= k < |r| ==> r[k] == transcript[k].text
  {
    if transcript == [] then [] else [transcript[0].text] + Texts(transcript[1..])
  }

  /** The total number of non-overlapping occurrences of the terms in the text. */
  function Hits(text: string, terms: seq<string>): nat {
    if terms == [] then 0
    else Hits(text, terms[..|terms| - 1]) + Count(text, terms[|terms| - 1])
  }

  /** Hits are counted exactly when some term occurs. */
  lemma {:induction false} HitsPositiveIff(text: string, terms: seq<string>)
    ensures Hits(text, terms) > 0 <==> exists k :: 0 <= k < |terms| && Contains(text, terms[k])
  {
    if terms != [] {
      var init := terms[..|terms| - 1];
      var last := terms[|terms| - 1];
      HitsPositiveIff(text, init);
      CountPositiveIff(text, last);
      assert forall k :: 0 <= k < |init| ==> init[k] == terms[k];
      if exists k :: 0 <= k < |terms| && Contains(text, terms[k]) {
        var k :| 0 <= k < |terms| && Contains(text, terms[k]);
        if k < |init| {
          assert Contains(text, init[k]);
        }
      }
    }
  }

  /** The subtitle text as one string: the cue texts joined by single spaces. */
  function FullText(transcript: seq<Cue>): string {
    Join(" ", Texts(transcript))
  }

  /** What filter_by_transcript_density computes: 0 for no cues or an empty joined text,
      otherwise hits per character, in percent. */
  function DensityOf(transcript: seq<Cue>): real {
    var text := FullText(transcript);
    if transcript == [] || |text| == 0 then 0.0
    else (Hits(text, CosmeTerms) as real / |text| as real) * 100.0
  }

  /** The density is never negative, and it is positive exactly when there are cues, their
      joined text is non-empty and it contains one of the cosmetics terms. */
  lemma DensityPositiveIff(transcript: seq<Cue>)
    ensures DensityOf(transcript) >= 0.0
    ensures transcript == [] ==> DensityOf(transcript) == 0.0
    ensures DensityOf(transcript) > 0.0 <==>
      && transcript != []
      && |FullText(transcript)| > 0
      && exists k :: 0 <= k < |CosmeTerms| && Contains(FullText(transcript), CosmeTerms[k])
  {
    HitsPositiveIff(FullText(transcript), CosmeTerms);
  }

  /** filter_by_transcript_density, counting term by term. */
  method TranscriptDensity(transcript: seq<Cue>) returns (density: real)
    ensures density == DensityOf(transcript)
  {
    if transcript == [] {
      return 0.0;
    }
    var fullText := Join(" ", Texts(transcript));
    var totalChars := |fullText|;
    if totalChars == 0 {
      return 0.0;
    }
    var hitCount := 0;
    for k := 0 to |CosmeTerms|
      invariant hitCount == Hits(fullText, CosmeTerms[..k])
    {
      assert CosmeTerms[..k + 1][..k] == CosmeTerms[..k];
      hitCount := hitCount + Count(fullText, CosmeTerms[k]);
    }
    assert CosmeTerms[..|CosmeTerms|] == CosmeTerms;
    density := (hitCount as real / totalChars as real) * 100.0;
  }

  const CosmeDensityThreshold: real := 0.3

  // ---------------------------------------------------------------- stage 3: the model's verdict

  /** filter_by_ai_classification on the model's reply: a failed call lets the video pass;
      otherwise the stripped, lower-cased answer must start with or contain "yes". */
  predicate AiSaysCosme(reply: Result<string, string>) {
    match reply
    case Err(_) => true
    case Ok(text) =>
      var answer := Lower(Strip(text));
      "yes" <= answer || Contains(answer, "yes")
  }

  /** The start test is subsumed by the containment test: the verdict is "yes" occurring
      anywhere in the answer. */
  lemma AiSaysCosmeIff(reply: Result<string, string>)
    ensures reply.Err? ==> AiSaysCosme(reply)
    ensures reply.Ok? ==> (AiSaysCosme(reply) <==> Contains(Lower(Strip(reply.value)), "yes"))
  {
    if reply.Ok? {
      var answer := Lower(Strip(reply.value));
      ContainsIff(answer, "yes");
      if "yes" <= answer {
        assert OccursAt(answer, "yes", 0);
      }
    }
  }

  /** The subtitle sample given to the model: the texts of the first 50 cues, joined. */
  function TranscriptSample(transcript: seq<Cue>): string {
    if transcript == [] then ""
    else Join(" ", Texts(if |transcript| <= 50 then transcript else transcript[..50]))
  }
}
