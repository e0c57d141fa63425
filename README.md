# CosmeReview AI: a verified model of its ingestion and catalog rules

CosmeReview AI collects cosmetics reviews from video channels and serves them as a catalog.
The crawler lists a channel's videos and selects the ones that are about cosmetics. It does this
by title keywords, by the density of cosmetics terms in the subtitles and by asking a language
model. A language model then extracts the products each video presents. Each product is matched
by name against the catalog, and the product and its review rows are stored. Maintenance
scripts do three things:
- merge products whose names normalise alike;
- enrich products with missing details;
- repair garbled names.

A FastAPI back end and the Next.js routes of the web front end read the catalog.

This project models those rules in Dafny and proves what they promise. Outside services become
inputs, and are not modelled:
- the database becomes a `Tables` value or the `Store` class of `models.dfy`;
- the video platform, the language model, the environment, the clock, id generation,
  NFKC and `SequenceMatcher.ratio` become functions passed in.

Modules, one per source file or concern:

- `Models` (`models.dfy`): the `products`, `videos` and `reviews` rows, the `Tables` snapshot
  and the `Store` session class.
- `NameMatching` (`normalize.dfy`): `normalize_name` and `find_matching_product`.
- `VideoFilter` (`video_filter.dfy`): the title, subtitle-density and AI stages of the crawler.
- `VideoUrls` (`video_urls.dfy`): video ids from links (`get_video_id` and the same block in
  `process_urls`).
- `VideoIngest` (`process_video.dfy`): `process_video_item` and `enrich_new_product`.
- `Pipeline` (`pipeline.dfy`): `process_urls` and the statistics loop of `process_channel`.
- `Merge` (`merge.dfy`): `merge_products`.
- `Gemini` (`gemini.dfy`): the key pool of `GeminiService`, its rotation, its retry loop and the
  reply clean-up of `analyze_video`.
- `YouTube` (`youtube.dfy`): `resolve_channel_id`, the subtitle (WebVTT) parser and the playlist
  paging of `get_channel_videos`.
- `Enrichment` (`enrich.dfy`): `enrich_product_info.py`, which covers its key list,
  `get_next_model`, `generate_product_details`, `enrich_product` and the skip rule of `main`.
- `CatalogApi` (`catalog_api.dfy`): `/categories`, `/brands`, `/products` and
  `/products/{id}` of `main.py`.
- `WebRoutes` (`web_routes.dfy`): the front end's products, channels, categories and brands
  routes.
- `Registration` (`registration.dfy`): `register_yt_cosme.py`.
- `NameRepair` (`name_repair.dfy`): `fix_data.py`.
- `Wrappers`, `Text` and `Collections` hold shared helpers:
  - `Option` and `Result`;
  - string search, counting, replacement and ASCII lower-casing;
  - de-duplication, insertion sort and the distinct-values lists.

## Model

| member | source | states |
|---|---|---|
| Models.Store.Snapshot | backend/models.py:11-55 | the snapshot holds exactly the session's three tables |
| Models.Store.constructor | backend/models.py:11-55 | a session opens on the given products, videos and reviews |
| Models.NewProduct | backend/models.py:11-28 | a new product row has the given id, name, brand, category and creation time, and no image or description |
| NameMatching.StripBracketsLeavesNoPair | backend/batch_processor.py:78 | after the bracket substitution no opening bracket is followed by a closing one |
| NameMatching.StripBracketsRemovesPair | backend/batch_processor.py:78 | a bracket pair, ASCII or full-width in any combination, is removed with its bracket-free content, and the text before it is kept |
| NameMatching.StripBracketsNoOpen | backend/batch_processor.py:78 | text without an opening bracket is unchanged by the substitution |
| NameMatching.NormalizeNameShape | backend/batch_processor.py:71-83 | a missing or empty name gives ""; the normal form has no whitespace, no upper-case letter and no bracket pair, and the final strip changes nothing |
| NameMatching.BestOfIsEarliestMaximum | backend/batch_processor.py:94-119 | the scan keeps the earliest strictly highest score; with no positive score it keeps nothing |
| NameMatching.FirstExactIsFirst | backend/batch_processor.py:97-102 | the exact-match shortcut returns the first product whose normal form equals the query, and none only when no product's does |
| NameMatching.ScoreExisting | backend/batch_processor.py:104-116 | one round's score is the name similarity plus 0.1 when both brands are set and their similarity exceeds 0.7 |
| NameMatching.MatchOfMeaning | backend/batch_processor.py:85-126 | an empty normal form gives None; otherwise the first product whose normal form equals the query is the match; without such a product a match is the earliest product with the highest score and that score is at least 0.85; no match means no normal form equals the query and every score is below 0.85; a match is always a stored product |
| NameMatching.MatchOfMember | backend/batch_processor.py:97-124 | a match is always one of the stored products |
| NameMatching.MatchOfExact | backend/batch_processor.py:97-102 | for a non-empty query, the first product whose normal form equals it is the match |
| NameMatching.MatchOfBest | backend/batch_processor.py:104-124 | when no normal form equals the query, a match is the earliest product with the highest score, and that score is at least 0.85 |
| NameMatching.MatchOfNone | backend/batch_processor.py:94-126 | for a non-empty query, no match means no normal form equals it and every product scores below 0.85 |
| NameMatching.FindMatchingProduct | backend/batch_processor.py:85-126 | the loop returns what the specification function MatchOf gives |
| VideoFilter.AnyKeywordInIff | backend/batch_processor.py:387-392 | the keyword loop is true exactly when some lower-cased keyword occurs in the text |
| VideoFilter.Texts | backend/batch_processor.py:421 | the texts joined are those of the cues, one per cue, in order |
| VideoFilter.FilterByTitleIff | backend/batch_processor.py:375-392 | a video passes the title stage exactly when "ベストコスメ" or "ベスコス" occurs in the lower-cased title, a space and the description |
| VideoFilter.HitsPositiveIff | backend/batch_processor.py:428-430 | the hit count is positive exactly when some cosmetics term occurs in the joined text |
| VideoFilter.DensityPositiveIff | backend/batch_processor.py:410-434 | the density is never negative, is 0 for no cues, and is positive exactly when there are cues and some term occurs in their joined text |
| VideoFilter.TranscriptDensity | backend/batch_processor.py:417-434 | the term-by-term loop computes hits / characters × 100, with 0 for no cues or an empty text |
| VideoFilter.AiSaysCosmeIff | backend/batch_processor.py:465-473 | a failed model call lets the video pass; otherwise it passes exactly when "yes" occurs in the stripped, lower-cased reply |
| VideoUrls.FirstParamIsFirst | backend/register_yt_cosme.py:16 | the `v` value taken is the first non-empty one given, and None means no non-empty value is given |
| VideoUrls.FirstParam | backend/register_yt_cosme.py:16 | a `v` value taken is never empty |
| VideoUrls.UsableVideoId | backend/batch_processor.py:179-190 | process_urls goes on exactly when get_video_id's rule gives a non-empty id, and then with that id |
| VideoUrls.VideoIdOfLinks | backend/register_yt_cosme.py:10-17 | a short link gives the path after its first character, and a watch link gives its first `v` value, on both host spellings |
| VideoUrls.OtherHostNoId | backend/register_yt_cosme.py:10-17 | any other host gives no id, whatever its path and query |
| VideoIngest.VideoRow | backend/batch_processor.py:266-272 | the stored video carries the id, title, channel and thumbnail of the snippet |
| VideoIngest.OfficialImage | backend/batch_processor.py:38-56 | the image kept from the search hit is "" or an http(s) link |
| VideoIngest.EnrichedNew | backend/batch_processor.py:323-367 | enrichment of a new product changes only its detail fields, and a failed request changes nothing |
| VideoIngest.NewProductRow | backend/batch_processor.py:287-299 | a new product takes the model's name, brand and category |
| VideoIngest.ProcessVideoItem | backend/batch_processor.py:213-320 | the method's new tables and outcome are those of the specification function AfterItem |
| VideoIngest.SaveFindingAppends | backend/batch_processor.py:276-316 | a finding only appends: one review when it has a product name, at most one product, and the new reviews link the video to a stored product |
| VideoIngest.SaveAllAppends | backend/batch_processor.py:276-318 | saving the findings appends exactly one review per named finding, and at most as many products |
| VideoIngest.SaveFindingCases | backend/batch_processor.py:277-283 | a finding without a product name changes nothing; a finding whose normalised name is stored reuses that product and adds one review |
| VideoIngest.ReviewDefaults | backend/batch_processor.py:309-315 | a new review has timestamp 0, sentiment "neutral" and summary "" where the model gave none |
| VideoIngest.AfterItemSkips | backend/batch_processor.py:227-262 | the tables change exactly when the video is saved; a stored video, or one without subtitles and description, is skipped; saving appends the video row |
| VideoIngest.AfterItemTwice | backend/batch_processor.py:228-231 | ingesting a video a second time changes nothing |
| Pipeline.ProcessUrls | backend/batch_processor.py:177-208 | the loop's new tables are those of the specification function AfterUrls |
| Pipeline.AfterUrlsAppends | backend/batch_processor.py:177-208 | handling links only appends rows; links without a usable id change nothing |
| Pipeline.StoredVideoUnchanged | backend/batch_processor.py:228-231 | a link to a stored video leaves the tables as they are |
| Pipeline.Screen | backend/batch_processor.py:535-572 | the stage verdicts are those of the function Stages: the title stage is filter_by_title; each stage passes only what the one before passed; a missing transcript passes the density stage; the title-only mode and skip-ai pass the later stages |
| Pipeline.StagesInOrder | backend/batch_processor.py:533-572 | the first stage is filter_by_title, each stage passes only what the one before passed, title-only mode makes the three verdicts agree, and skip-ai makes the AI verdict that of the density stage |
| Pipeline.ScreenVideo | backend/batch_processor.py:520-584 | the new tables and counters are those of ChannelStep: a stored video only raises the skip count and changes no table; any other raises each stage counter by whether it passes that stage, and one passing all three is ingested as process_video_item does and counted as processed |
| Pipeline.ChannelStepKeeps | backend/batch_processor.py:520-584 | one loop step keeps the counters consistent (skipped + title passes ≤ seen, ai ≤ density ≤ title, processed == ai), raises the title count by at most the video's own title verdict, keeps the three counts equal in title-only mode, and only appends rows |
| Pipeline.ChannelFoldKeeps | backend/batch_processor.py:518-584 | the whole loop keeps the same facts, with the title count bounded by the number of videos filter_by_title accepts |
| Pipeline.ChannelFoldAllStored | backend/batch_processor.py:527-531 | a channel whose videos are all stored changes no table and only counts each as skipped |
| Pipeline.ChannelStepStored | backend/batch_processor.py:527-531 | a stored video leaves the tables alone and only raises the skip count |
| Pipeline.ProcessChannel | backend/batch_processor.py:510-584 | no listed videos gives no report and changes nothing; otherwise the tables and report are those of folding ChannelStep over the videos from zero counters with total = number of videos, hence total is the number of videos, skipped + title passes ≤ total, title passes ≤ the videos filter_by_title accepts, ai ≤ density ≤ title, processed == ai, title-only mode makes the three stage counts equal, and rows are only appended |
| Merge.WithoutMembers | backend/merge_products.py:60 | deleting ids leaves exactly the products with other ids |
| Merge.WithoutCount | backend/merge_products.py:60-67 | deleting n ids that each belong to one product removes exactly n products |
| Merge.RepointAt | backend/merge_products.py:54-57 | each review of a moved product points at its new product, and every other review is unchanged |
| Merge.RepointTwice | backend/merge_products.py:54-57 | moving two disjoint sets of products one after the other equals moving both at once |
| Merge.Earliest | backend/merge_products.py:43-44 | the kept member has the smallest created_at, and it is the first of those, as the stable sort puts it |
| Merge.OthersCount | backend/merge_products.py:45 | among the first n members, those other than the kept one number n − 1 when the kept one is among them, n otherwise |
| Merge.MoveReviews | backend/merge_products.py:54-57 | the loop repoints every review of the duplicate to the kept product and changes nothing else |
| Merge.MergeGroup | backend/merge_products.py:43-61 | a duplicate group deletes every member but the earliest, moves their reviews to it, and counts size − 1 |
| Merge.GroupMembers | backend/merge_products.py:26-29 | a group holds exactly the products with its normalised name, without repeating an id |
| Merge.GroupsOfGroups | backend/merge_products.py:26-29 | the dictionary has an entry exactly for the names that occur, and it is their group in catalog order |
| Merge.GroupByName | backend/merge_products.py:26-29 | the grouping loop builds the dictionary GroupsOf describes |
| Merge.DuplicatesAre | backend/merge_products.py:32 | the duplicate groups are exactly the groups with more than one product |
| Merge.DupKeysAre | backend/merge_products.py:32 | a name is a duplicate key exactly when its group holds more than one product |
| Merge.MergeGroups | backend/merge_products.py:40-61 | after the loop the extras of every duplicate group are deleted and their reviews moved to the product their group keeps, in any group order |
| Merge.MergeProducts | backend/merge_products.py:18-70 | no report and no change exactly when no name is shared; otherwise the extras are deleted, reviews moved, merged == number deleted and merged + remaining == total |
| Merge.SurvivorsAreKept | backend/merge_products.py:43-61 | the products left are exactly those their group keeps, unchanged |
| Merge.OnePerName | backend/merge_products.py:5-8 | after the merge no two products share a normalised name |
| Merge.EveryNameKept | backend/merge_products.py:5-8 | every normalised name is still carried, by its earliest-created product |
| Merge.ReviewsFollow | backend/merge_products.py:53-57 | no review is lost; a review of a stored product ends on a surviving product; reviews of survivors are unchanged; only the product id ever changes |
| Merge.NoDuplicatesNoChange | backend/merge_products.py:35-38 | with no shared normalised name nothing is deleted and no review moves |
| Gemini.LoadApiKeys | backend/services/gemini.py:15-35 | the loop returns the specification PoolKeys: the set numbered keys in order, else the single key |
| Gemini.PoolKeysShape | backend/services/gemini.py:23-35 | at most ten non-empty keys; a value is in the pool exactly when a numbered variable holds it, or when none is set and GEMINI_API_KEY holds it |
| Gemini.PoolKeysVsScriptKeys | backend/services/gemini.py:23-35 | the pool equals the enrichment script's list unless both GEMINI_API_KEY and a numbered key are set; then the script puts the single key in front |
| Gemini.NextFreeIsFirst | backend/services/gemini.py:84-90 | the cyclic search returns the first non-exhausted index, and finds none exactly when every scanned index is exhausted |
| Gemini.NextFreeNoneIffAll | backend/services/gemini.py:84-90 | the search over all n offsets fails exactly when all n indices are exhausted |
| Gemini.KeyPool.constructor | backend/services/gemini.py:50-52 | the shared index starts at 0 and the exhausted set empty |
| Gemini.GeminiService.constructor | backend/services/gemini.py:54-66 | the given keys or the pool; with no keys no model; otherwise the key at the shared index modulo the key count is switched to |
| Gemini.GeminiService.SwitchToKey | backend/services/gemini.py:68-73 | the model uses the key at the index and the shared index becomes it |
| Gemini.GeminiService.NextKey | backend/services/gemini.py:76-90 | the current index is marked exhausted, then the first free index from current + 1 cyclically is switched to; false, with nothing switched, exactly when none is free |
| Gemini.RotateLands | backend/services/gemini.py:110-124 | after a rate-limited reply the key in use is a free pool key; everything exhausted resets the set and the index to 0 |
| Gemini.RetryBounded | backend/services/gemini.py:98-128 | between attempts and 2n rate-limited replies; giving up exactly at 2n; success is the stripped reply and frees the key; other errors are re-raised |
| Gemini.RetryKeepsKeys | backend/services/gemini.py:98-128 | without a rate-limited reply the key stays; after one the key in use is the pool key at the index |
| Gemini.GeminiService.GenerateWithRetry | backend/services/gemini.py:92-128 | the loop's result and rotation state are those of the specification function Retry |
| Gemini.JsonFenceUnwraps | backend/services/gemini.py:196-203 | a reply fenced as a JSON block gives its body, stripped |
| Gemini.PlainFenceUnwraps | backend/services/gemini.py:198-203 | a reply fenced as a plain block gives its body, stripped |
| Gemini.UnfencedStripped | backend/services/gemini.py:196-203 | a reply without fences is only stripped |
| Gemini.GeminiService.AnalyzeVideo | backend/services/gemini.py:130-208 | with neither transcript nor description: no findings and no request; otherwise the decoded findings of the retry loop, none on any failure |
| YouTube.ResolveChannelId | backend/services/youtube.py:29-31 | an input starting with "UC" and 24 characters long is returned as given, with no lookup |
| YouTube.HandleNeverFallsThrough | backend/services/youtube.py:37-66 | a handle path is answered by the handle lookup or, when that raises, by the search; the search is consulted only then |
| YouTube.ChannelPathGivesId | backend/services/youtube.py:68-71 | a path channel/UC followed by a run of [\w-] characters gives "UC" and that run |
| YouTube.WordRun | backend/services/youtube.py:69 | the capture is the longest prefix of [\w-] characters |
| YouTube.WordRunOf | backend/services/youtube.py:69 | a run of [\w-] characters followed by anything else is captured whole |
| YouTube.NoFormNoId | backend/services/youtube.py:90-91 | a path that fits none of the forms gives None |
| YouTube.FindTimingLeftmost | backend/services/youtube.py:259-266 | the search finds the leftmost cue timing, and none exactly when there is none |
| YouTube.ClockDigits | backend/services/youtube.py:259 | each digit position of a matched time holds a digit |
| YouTube.FirstCloseIsFirst | backend/services/youtube.py:288 | the tag's end is the first `>` |
| YouTube.RemoveTagsChars | backend/services/youtube.py:288 | tag removal keeps only characters of the line |
| YouTube.RemoveTagsLeavesNone | backend/services/youtube.py:288 | no tag is left after the removal |
| YouTube.RemoveTagsWithoutLt | backend/services/youtube.py:288 | a line without `<` is unchanged |
| YouTube.TextPartsNonEmpty | backend/services/youtube.py:279-291 | every text part gathered is non-empty |
| YouTube.ReadCueText | backend/services/youtube.py:279-291 | the inner loop gathers the specification's text parts: lines up to a blank or timing line, tags removed, empty results dropped |
| YouTube.CueOfLine | backend/services/youtube.py:265-298 | what line i adds is the cue it starts (a timing with text after it), so the cues after line i are those before it plus that cue |
| YouTube.CueLine | backend/services/youtube.py:265-298 | a line that is no timing, or a timing with no text after it, adds no cue; otherwise one cue with the joined text, the start and the duration |
| YouTube.ParseVtt | backend/services/youtube.py:256-300 | the parser returns the specification Transcript of the lines |
| YouTube.CuesHaveText | backend/services/youtube.py:293-298 | every cue has non-empty text |
| YouTube.ClockRoundTrip | backend/services/youtube.py:271-273 | a time written as hh:mm:ss.ttt is matched and parses back to its milliseconds |
| YouTube.TimingOfLine | backend/services/youtube.py:266-276 | a timing line's start is the first time and its end the second, in milliseconds |
| YouTube.BlockRoundTrip | backend/services/youtube.py:256-300 | a timing line, a text line and a blank line parse back to their cue |
| YouTube.TranscriptAppend | backend/services/youtube.py:265-298 | two files, the first ending in a blank line, parse to the cues of each in turn |
| YouTube.RenderRoundTrip | backend/services/youtube.py:256-300 | cues written as blocks parse back to the same cues in file order |
| YouTube.GetChannelVideos | backend/services/youtube.py:101-148 | the paging loop returns the specification ChannelVideos of the uploads lookup and the page fetches, for services whose pages advance |
| YouTube.ListingBounded | backend/services/youtube.py:119-141 | the listing extends what was collected and stays within max_results when pages hold at most what was asked |
| YouTube.ListingReachesTarget | backend/services/youtube.py:119-141 | against a service that answers every non-empty request with a full page and a next token, exactly max_results videos are collected |
| YouTube.FullPagesReachTarget | backend/services/youtube.py:119-141 | such a service exists and advances, and get_channel_videos collects exactly max_results videos from it |
| Enrichment.NumberedKeysMembers | backend/enrich_product_info.py:29 | a value is listed exactly when a numbered variable in range holds it; the list is empty exactly when none is set |
| Enrichment.ApiKeysShape | backend/enrich_product_info.py:29-31 | the set numbered keys 1..10 in order, with GEMINI_API_KEY in front when it is set; at most 11 non-empty keys |
| Enrichment.KeyRing.constructor | backend/enrich_product_info.py:29-35 | module load: the key list from the environment and the index 5 |
| Enrichment.KeyRing.GetNextModel | backend/enrich_product_info.py:37-47 | no keys exits; an index past the list is an IndexError; otherwise the key at the index is used and the index advances by one modulo the key count |
| Enrichment.Set | backend/enrich_product_info.py:210 | setattr changes that field and nothing else |
| Enrichment.Item | backend/enrich_product_info.py:194-205 | a lookup value is kept under its field exactly when it is truthy |
| Enrichment.CopiedFields | backend/enrich_product_info.py:157-168 | a field is copied exactly when the reply's value is truthy; features only as a non-empty list, and then as its JSON text |
| Enrichment.ExtractJsonFenced | backend/enrich_product_info.py:150-151 | a reply fenced as a JSON block gives its body, stripped |
| Enrichment.ExtractJsonUnfenced | backend/enrich_product_info.py:150-153 | a reply without a fence is decoded as it is |
| Enrichment.NextIsMod | backend/enrich_product_info.py:46 | the advanced index, written without the modulo, is (index + 1) % len(API_KEYS) and stays in range |
| Enrichment.Ask | backend/enrich_product_info.py:146-154 | one attempt: a failed request passes its error on; a stripped reply of the form ```json body ``` rest decodes the stripped body; a stripped reply with no fence decodes as it is |
| Enrichment.RetryCases | backend/enrich_product_info.py:144-180 | a decoded reply ends the loop with its copied fields; a 429 or quota error switches to the next key and tries again; any other error ends the loop with no fields |
| Enrichment.KeyRing.SwitchKey | backend/enrich_product_info.py:173 | get_next_model: the model takes the key at the index and the index advances by one modulo the key count |
| Enrichment.KeyRing.TryOnce | backend/enrich_product_info.py:144-180 | one pass of the loop: either it ends the loop with the fields Retry gives, or it switched keys and what remains is Retry from the next attempt |
| Enrichment.RetryBounds | backend/enrich_product_info.py:144-180 | the loop switches keys at most len(API_KEYS)+1 times; the index ends advanced by the number of switches modulo the key count, and the key in use is the last one switched to |
| Enrichment.RetryInfo | backend/enrich_product_info.py:144-182 | the fields returned are none, or those copied from one decoded reply |
| Enrichment.KeyRing.GenerateProductDetails | backend/enrich_product_info.py:115-182 | the retry loop's fields and key state are those of the specification function Retry |
| Enrichment.FillNeverOverwrites | backend/enrich_product_info.py:207-213 | a truthy field is never overwritten; a field changes exactly when it is fillable, and then takes the dict's value |
| Enrichment.Fill | backend/enrich_product_info.py:207-213 | each detail field takes the filled value and the identifying fields are unchanged |
| Enrichment.FillFields | backend/enrich_product_info.py:208-213 | the update loop yields Fill of the dict and counts the fillable fields |
| Enrichment.GatheredIgnoresLookups | backend/enrich_product_info.py:194-205 | a lookup matters only when the product lacks that link |
| Enrichment.LookupValuesNonEmpty | backend/enrich_product_info.py:194-205 | only non-empty lookup values are merged |
| Enrichment.GatheredLookupsWin | backend/enrich_product_info.py:191-205 | for a product lacking a link the lookup's values override the model's; every value comes from one of the three sources |
| Enrichment.EnrichProduct | backend/enrich_product_info.py:185-218 | the row becomes Fill of the gathered values, updated counts the filled fields, and a commit happens exactly when updated > 0 |
| Enrichment.EnrichChangesOnlyEmpty | backend/enrich_product_info.py:207-213 | the fields changed are exactly the fillable ones, and truthy fields are kept |
| Enrichment.EnrichRun | backend/enrich_product_info.py:227-247 | main's loop keeps the number of products, and the key index it ends with still points into the key list |
| Enrichment.EnrichStepFills | backend/enrich_product_info.py:232-238 | a well-filled product is left as it is; any other has exactly its fillable fields changed; every product keeps its identity columns and set fields |
| Enrichment.EnrichRunAllWellFilled | backend/enrich_product_info.py:227-237 | when every product is well filled, main changes no product and leaves the key state alone |
| Enrichment.EnrichRunPrefix | backend/enrich_product_info.py:227-247 | the run over the first i+1 products is the run over the first i followed by the step on product i, from the key state that run left |
| Enrichment.EnrichRunKeeps | backend/enrich_product_info.py:227-247 | through the whole run every product keeps its identity columns and set fields, and a well-filled one stays as it was |
| Enrichment.EnrichAt | backend/enrich_product_info.py:228-241 | the product and the key state become those of EnrichStep: a well-filled product and the key state are unchanged; any other product becomes Fill of its gathered values and the key state is where generate_product_details left it; the count is the number of changed fields |
| Enrichment.EnrichNext | backend/enrich_product_info.py:227-247 | one pass of main's loop extends the run of EnrichRun and the changed-field count by product i and leaves the later products as they were |
| Enrichment.EnrichAll | backend/enrich_product_info.py:221-251 | the products and the key state become those of EnrichRun, which enriches every product that is not well filled in list order and skips the others; every product keeps its set fields; the total counts the changed fields |
| CatalogApi.Categories | backend/main.py:91-95 | sorted, without duplicates, and a value is listed exactly when it is a non-empty category of some product |
| CatalogApi.Brands | backend/main.py:97-101 | sorted, without duplicates, and a value is listed exactly when it is a non-empty brand of some product |
| CatalogApi.CategoriesOrderFree | backend/main.py:94-95 | the category list does not depend on the row order |
| CatalogApi.ReviewsOf | backend/main.py:146 | exactly the reviews of the product |
| CatalogApi.VideosOf | backend/main.py:139 | exactly the stored videos some of the given reviews point at |
| CatalogApi.Select | backend/main.py:115-128 | exactly the products that pass the filters |
| CatalogApi.SelectAll | backend/main.py:112-128 | without q, category and brand every product is listed, in the order of the model's product sequence |
| CatalogApi.Window | backend/main.py:130 | a negative offset or limit is an error; otherwise the slice from min(skip, n) of length min(limit, what is left) |
| CatalogApi.RoundHalfEven | backend/main.py:156 | the nearest integer to the ratio, ties to the even one |
| CatalogApi.PositiveRate | backend/main.py:156 | positive_rate in tenths is at most 1000, and 0 without reviews |
| CatalogApi.PositiveRateExtremes | backend/main.py:181-183 | all reviews positive gives exactly 100%, none positive gives 0% |
| CatalogApi.Annotate | backend/main.py:172-178 | a review keeps its row; with no stored video of its id it gets no details, and under the videos' primary key a stored video of its id gives it that video's title, thumbnail and channel |
| CatalogApi.ProductNamed | backend/main.py:166-168 | the lookup finds a stored product with the id, or none exists |
| CatalogApi.ListEntry | backend/main.py:134-157 | a product yields an entry exactly when it has a name and every joined video has a title, and the entry is the product's Summary |
| CatalogApi.ListEntries | backend/main.py:133-158 | the loop yields the entries exactly when every product found validates, and they are the products' Summary entries, one per product, in order |
| CatalogApi.GetProducts | backend/main.py:103-161 | the handler returns the specification ProductList of the tables, including the validation failure for a product without a name or with a joined video without a title |
| CatalogApi.GetProductDetail | backend/main.py:163-200 | the handler returns the specification ProductPage of the tables: 404, 500 for a product that fails validation, or the page; DetailAgreesWithList states what the page holds |
| CatalogApi.SearchNeedsReviewedVideo | backend/main.py:115-120 | with q, every listed product has a review whose video is stored, and q occurs in its name, brand or that video's channel |
| CatalogApi.SelectionExact | backend/main.py:112-128 | a product is listed exactly when it is stored and passes the filters; category and brand are exact; no filter lists everything |
| CatalogApi.SummaryStats | backend/main.py:133-157 | a list entry counts the product's reviews, its rate is at most 100% and 0 without reviews, and its thumbnail and link come from a joined video |
| CatalogApi.DetailAgreesWithList | backend/main.py:163-200 | an unknown id gives 404; a product without a name or with a joined video without a title gives 500; otherwise the page agrees with the list entry, except that under the videos' primary key each review of a stored video carries that video's title, thumbnail and channel (a review of no stored video carries none) |
| CatalogApi.ListIsWindow | backend/main.py:130-158 | a negative skip or limit fails; otherwise the list fails exactly when a product of the window fails validation, and else holds at most limit entries: the selected products from the skip position on |
| WebRoutes.Filter | frontend/app/api/products/route.ts:18-26 | exactly the rows whose name, brand or description contains q ignoring case, with exact category and brand |
| WebRoutes.InsertByDateSorted | frontend/app/api/products/route.ts:28 | inserting into a newest-first list keeps it newest first |
| WebRoutes.InsertByDate | frontend/app/api/products/route.ts:28 | insertion adds exactly the one row |
| WebRoutes.NewestFirstOrder | frontend/app/api/products/route.ts:28 | the ordering is a permutation of the rows |
| WebRoutes.NewestFirstOrderSorted | frontend/app/api/products/route.ts:28 | the ordering is newest first |
| WebRoutes.Tally | frontend/app/api/products/route.ts:42-45 | the count of an id is the number of reviews naming it, and it has an entry exactly when some review names it |
| WebRoutes.CountReviews | frontend/app/api/products/route.ts:42-45 | the reduce builds the specification Tally |
| WebRoutes.GetProducts | frontend/app/api/products/route.ts:4-54 | the handler returns the specification ProductsResponse |
| WebRoutes.ProductsFailure | frontend/app/api/products/route.ts:30-33 | a failed product query is a 500 carrying its message |
| WebRoutes.ProductsRowsSpec | frontend/app/api/products/route.ts:18-53 | the response lists the wanted rows, each as often as returned, newest first |
| WebRoutes.ProductsCountsSpec | frontend/app/api/products/route.ts:36-51 | each entry counts the reviews naming it, 0 when the review query failed, and has a rate of 100 |
| WebRoutes.ChannelsResponse | frontend/app/api/channels/route.ts:4-18 | a failure is a 500; otherwise sorted, without duplicates, and a name is listed exactly when it is a non-empty channel name of some row |
| WebRoutes.ChannelsOrderFree | frontend/app/api/channels/route.ts:17 | the list does not depend on the order or repetition of the rows |
| WebRoutes.FacetResponse | frontend/app/api/categories/route.ts:4-16 | GET /api/categories, and GET /api/brands (the same code on the brand column): a failure is a 500; otherwise no duplicates, and a value is listed exactly when it is a non-empty value of some row |
| WebRoutes.FacetRoutesKeepFirstOrder | frontend/app/api/brands/route.ts:15 | brands (and categories) are not sorted: they come in the order of their first row |
| Collections.FacetKeepsFirstOrder | frontend/app/api/brands/route.ts:15 | a Set keeps values in the order of their first occurrence |
| Collections.PresentValuesMembers | frontend/app/api/brands/route.ts:15 | filter(Boolean) keeps a value exactly when it is set and non-empty |
| Collections.PresentValuesNoDup | frontend/app/api/brands/route.ts:15 | filtering a list without duplicates leaves none |
| Collections.PresentValuesKeepOrder | frontend/app/api/brands/route.ts:15 | filtering keeps the surviving values in their order of occurrence |
| Collections.Facet | frontend/app/api/brands/route.ts:15 | no duplicates, and a value is listed exactly when it is a non-empty present value |
| Collections.SortedFacetOrderFree | frontend/app/api/channels/route.ts:17 | the sorted distinct list depends only on which values occur |
| Collections.SortedFacet | frontend/app/api/channels/route.ts:17 | sorted, without duplicates, and a value is listed exactly when it is a non-empty present value |
| Registration.EnsureVideo | backend/register_yt_cosme.py:42-55 | the video is stored afterwards, and a row is added only when no video has the id |
| Registration.VideoRow | backend/register_yt_cosme.py:45-51 | the new video row has the id of the link |
| Registration.ProductIndex | backend/register_yt_cosme.py:60 | the first product with exactly the name, or none has it |
| Registration.NewReview | backend/register_yt_cosme.py:77-84 | a new review is positive, summarised by the features or the default text, with timestamp 0 when none is given |
| Registration.RegisterOne | backend/register_yt_cosme.py:58-87 | one item's lookups and inserts give the specification RegisterItem |
| Registration.RegisterProducts | backend/register_yt_cosme.py:19-90 | the script gives the specification Registered |
| Registration.NothingWithoutVideoOrFile | backend/register_yt_cosme.py:25-37 | without a usable id or without the file nothing changes |
| Registration.ProductIndexAppend | backend/register_yt_cosme.py:60-72 | appending a product does not change the first product with a name |
| Registration.RegisterItemAppends | backend/register_yt_cosme.py:60-87 | one item appends at most one product and one review, and adds a product exactly when none has its name |
| Registration.RegisterItemDone | backend/register_yt_cosme.py:60-87 | after an item is registered its product and review exist, and items registered before stay so |
| Registration.RegisterItemDoneNoop | backend/register_yt_cosme.py:60-76 | an item whose product and review exist changes nothing |
| Registration.RegisterItemsDone | backend/register_yt_cosme.py:58-87 | after the loop every item has its product and review, and the videos are unchanged |
| Registration.RegisterItemsNoop | backend/register_yt_cosme.py:58-87 | items all registered already change nothing |
| Registration.RegisterTwice | backend/register_yt_cosme.py:19-90 | running the registration again on the same link and file, at any time, changes nothing |
| Registration.RegisterItemsAppend | backend/register_yt_cosme.py:58-87 | the registration only appends, and every review it adds is a positive review of the video |
| NameRepair.FirstRule | backend/fix_data.py:30-45 | the rule chosen is within the chain and its fragment occurs in the name |
| NameRepair.FirstRuleIsFirst | backend/fix_data.py:30-45 | the rule chosen is the first whose fragment occurs, and none is chosen only when no fragment occurs |
| NameRepair.RulesDiffer | backend/fix_data.py:30-45 | every fragment is non-empty and differs from its replacement |
| NameRepair.ReplaceAllChanges | backend/fix_data.py:31 | replacing an occurring fragment by a different text changes the name |
| NameRepair.FixNameSpec | backend/fix_data.py:30-45 | a name changes exactly when some fragment occurs; then only the first such fragment is replaced, at every occurrence |
| NameRepair.FixProductSpec | backend/fix_data.py:47-55 | a changed name is stored and the image cleared; a product without any fragment is left as it was |
| NameRepair.FixAll | backend/fix_data.py:24-60 | the repair keeps the number of products |
| NameRepair.FixProductNames | backend/fix_data.py:24-60 | the loop leaves the products FixAll gives, rolled back when a name is missing, and no other table changes |

## Left out

- Network scraping is not modelled: `resolve_official_product_info` (Amazon) and the Amazon and
  @cosme fetchers of `enrich_product_info.py`. Their results are inputs (`Official`,
  `AmazonPage`, the @cosme link).
- The calls into the video platform's API (`search_videos`, `get_video_details`,
  `get_transcript`), the language model and the database are not modelled. Their answers are
  inputs to the model: successes, errors and texts.
- `run_batch` is not modelled. It is `search_videos` followed by `process_video_item` for each
  hit, and `process_video_item` is modelled.
- `analyze_transcript` is not a separate member. It is `analyze_video` with an empty
  description and title, and `Gemini.GeminiService.AnalyzeVideo` covers it.
- Library internals are inputs:
  - NFKC normalisation (Unicode Standard Annex #15);
  - `SequenceMatcher.ratio`;
  - `urlparse` and `parse_qs`, given as a parsed link (RFC 3986, sections 3.2.2 and 3.4);
  - `str.splitlines`;
  - `json.loads` and `json.dumps`;
  - `datetime.fromisoformat` and `datetime.now`;
  - `uuid4`, given as an id source.
- Lower-casing covers ASCII letters only. `\d` and `\w` are ASCII only (Python's `re` also
  matches other Unicode digits and letters in `str` patterns).
- `.+` in the channel patterns is modelled as capturing up to the first line break.
- Floating point is not modelled:
  - the density is an exact real;
  - subtitle times are whole milliseconds (`float()` of the seconds is not modelled);
  - `positive_rate` is in tenths of a percent, rounded half to even on the exact ratio.
    IEEE rounding of `x / n * 100` before `round(…, 1)` is not modelled.
- SQL semantics follow PostgreSQL:
  - `contains` is a case-sensitive LIKE, and the model matches `q` literally: LIKE's `%` and
    `_` wildcards inside `q`, which `contains` passes on unescaped, are not modelled;
  - a negative OFFSET or LIMIT is an error;
  - rows are taken in the order of the model's sequences. PostgreSQL leaves that order
    unspecified without ORDER BY, so the page a window selects, the video that gives
    `thumbnail_url` and `video_content_url`, and the order of a product's reviews are one of
    the possible outcomes.

  A SQLite fallback of the database is not modelled.
- `ProductDetail` carries the whole product row, including `created_at`, where the response
  schema drops unlisted columns.
- WebRoutes.GetProducts: each entry carries the whole product row. The route's query selects
  ten columns (id, name, brand, category, image_url, description, price, volume,
  cosme_rating, thumbnail_url), so the response also carries ingredients, how_to_use,
  features, the two links and created_at, which the route does not send. The select's
  `thumbnail_url` is not a column of `products` in `backend/models.py`; the query's rows or
  its error are inputs, so what the database answers to it is not modelled.
- VideoIngest.ReviewDefaults: an explicit JSON `null` in a finding is treated like a missing
  key and gets the default (0, "neutral", ""). The source's `dict.get` returns `None` for it
  and stores NULL, and a NULL `timestamp_seconds` then fails `ReviewSchema` in the
  product-detail response. Neither the NULL columns nor that failure are modelled.
- CatalogApi.GetProducts, CatalogApi.GetProductDetail: a review's `video_id` and
  `timestamp_seconds` always have a value in the model, so the validation failure a NULL in
  either causes through `ReviewSchema` is not modelled. A NULL product name or video title
  is modelled (`Answerable`).
- CatalogApi.GetProductDetail, CatalogApi.GetProducts: each review entry carries the whole
  review row, including its `product_id`. `ReviewSchema` has no `product_id` field, so the
  response does not send it.
- VideoIngest.ProcessVideoItem, Gemini.GeminiService.AnalyzeVideo: the decoded reply of the
  language model is a list of findings with the expected field types, or a failure that gives
  no findings. `analyze_video` returns whatever `json.loads` yields once `len()` succeeds, so
  a non-empty JSON object or string reaches `process_video_item`. There `.get` on a dict key
  or a character raises, nothing catches it, and the run stops with the video row already
  committed. That crash path is not modelled.
- Merge.MoveReviews, Merge.ReviewsFollow: the model follows the script's repoint of each
  review to the kept product. The session does not autoflush, and `Product.reviews` has no
  delete cascade. So at the commit's flush the ORM very likely loads the deleted duplicate's
  reviews and sets their `product_id` to NULL, undoing the repoint. That library behaviour is
  not modelled.
- Front end details:
  - ILIKE is modelled as ASCII case-insensitive containment;
  - the filter-string injection through `%`, `_` or `,` in `q` is not modelled, only the
    intended substring search;
  - the `created_at DESC` order is a stable insertion sort (PostgreSQL leaves ties
    unspecified);
  - JavaScript's `sort()` compares UTF-16 code units where the model compares code points;
    the two agree on the Basic Multilingual Plane;
  - a review with a null `product_id` and ids that clash with JavaScript object prototype
    keys are not modelled.
- Logging, `print`, `time.sleep` and `db.close()` are left out. Commit failures are left out.
- `YouTube.GetChannelVideos` is not modelled for a service that answers an empty page which
  still points to a next page. `Advancing` requires every page to hold a video or to end the
  listing, which bounds the paging.
- The `yt-dlp` steps of `_get_transcript_manual` before the text is parsed are not modelled:
  the subtitle lookup, the `ja` track and the HTTP fetch.
- `YouTube.RenderRoundTrip` covers only cues whose times fit two hour digits and whose text
  fits one line without tags or surrounding whitespace.
- `register_products` is not modelled for a malformed JSON file or an item without a `name`.
  A missing timestamp and a null one are treated alike (both give 0).
- The unused `mappings` list of `fix_data.py` is left out. A product without a name makes the
  `in` test raise, and the rollback restores every row; this is modelled.
- `merge_products` sorts a group by `created_at or ""`; `created_at` always has a value here
  (the column has a default).
- `merge_products` sorts each group in place; only the kept member affects the outcome.
  `Merge.Earliest` models that member, not the rest of the order.
- Products without a name all normalise to "" and are merged together, as the source does.
- `Enrichment.KeyRing.GetNextModel` reports `sys.exit(1)` and the IndexError as error results;
  the process exit is not modelled.
