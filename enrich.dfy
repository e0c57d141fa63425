/** The product-detail enrichment script (backend/enrich_product_info.py): its key list and
    round-robin key switch, the language-model request with quota retries, the merge of
    the gathered values into a product without overwriting, and the main loop with its
    skip rule. The model replies, the search pages and JSON decoding are parameters. */
module Enrichment {
  import opened Wrappers
  import opened Text
  import opened Models

  // ---------------------------------------------------------------- API_KEYS

  function KeyName(i: nat): string { "GEMINI_API_KEY_" + NatToString(i) }

  /** The set (non-empty) values of GEMINI_API_KEY_lo .. GEMINI_API_KEY_(hi-1), in order. */
  function NumberedKeys(getenv: string -> Option<string>, lo: nat, hi: nat): (r: seq<string>)
    ensures forall k :: 0 <= k < |r| ==> r[k] != ""
    decreases hi - lo
  {
    if lo >= hi then []
    else
      var here := if Truthy(getenv(KeyName(lo))) then [getenv(KeyName(lo)).value] else [];
      here + NumberedKeys(getenv, lo + 1, hi)
  }

  /** A value is listed exactly when some numbered variable in range holds it, there is at
      most one entry per variable, and the list is empty exactly when no variable is set. */
  lemma {:induction false} NumberedKeysMembers(getenv: string -> Option<string>, lo: nat, hi: nat)
    ensures forall v :: v in NumberedKeys(getenv, lo, hi) <==>
      exists i :: lo <= i < hi && getenv(KeyName(i)) == Some(v) && v != ""
    ensures lo <= hi ==> |NumberedKeys(getenv, lo, hi)| <= hi - lo
    ensures NumberedKeys(getenv, lo, hi) == [] <==> forall i :: lo <= i < hi ==> !Truthy(getenv(KeyName(i)))
    decreases hi - lo
  {
    if lo < hi {
      NumberedKeysMembers(getenv, lo + 1, hi);
    }
  }

  /** API_KEYS: the numbered keys 1..10 that are set, with GEMINI_API_KEY in front when set. */
  function ApiKeys(getenv: string -> Option<string>): seq<string> {
    var numbered := NumberedKeys(getenv, 1, 11);
    if Truthy(getenv("GEMINI_API_KEY")) then [getenv("GEMINI_API_KEY").value] + numbered else numbered
  }

  lemma ApiKeysShape(getenv: string -> Option<string>)
    ensures var keys := ApiKeys(getenv);
      && |keys| <= 11
      && (forall k :: 0 <= k < |keys| ==> keys[k] != "")
      && (Truthy(getenv("GEMINI_API_KEY")) ==>
            keys[0] == getenv("GEMINI_API_KEY").value && keys[1..] == NumberedKeys(getenv, 1, 11))
      && (!Truthy(getenv("GEMINI_API_KEY")) ==> keys == NumberedKeys(getenv, 1, 11))
      && (keys == [] <==> !Truthy(getenv("GEMINI_API_KEY")) && forall i :: 1 <= i < 11 ==> !Truthy(getenv(KeyName(i))))
  {
    NumberedKeysMembers(getenv, 1, 11);
  }

  // ---------------------------------------------------------------- product fields and dicts

  /** The product attributes the script fills in, by their column names. */
  datatype Field = Description | Features | Ingredients | Volume | HowToUse | Price
                 | AmazonUrl | ImageUrl | CosmeUrl

  function Get(p: Product, f: Field): Option<string> {
    match f
    case Description => p.description
    case Features => p.features
    case Ingredients => p.ingredients
    case Volume => p.volume
    case HowToUse => p.howToUse
    case Price => p.price
    case AmazonUrl => p.amazonUrl
    case ImageUrl => p.imageUrl
    case CosmeUrl => p.cosmeUrl
  }

  /** setattr(product, field, value): that field changes and no other attribute does. */
  function Set(p: Product, f: Field, v: string): (q: Product)
    ensures forall g :: Get(q, g) == if g == f then Some(v) else Get(p, g)
    ensures q.id == p.id && q.name == p.name && q.brand == p.brand && q.category == p.category
    ensures q.cosmeRating == p.cosmeRating && q.createdAt == p.createdAt
  {
    match f
    case Description => p.(description := Some(v))
    case Features => p.(features := Some(v))
    case Ingredients => p.(ingredients := Some(v))
    case Volume => p.(volume := Some(v))
    case HowToUse => p.(howToUse := Some(v))
    case Price => p.(price := Some(v))
    case AmazonUrl => p.(amazonUrl := Some(v))
    case ImageUrl => p.(imageUrl := Some(v))
    case CosmeUrl => p.(cosmeUrl := Some(v))
  }

  /** A dict from field names to values. Its order only affects logging, so it is a map;
      d.update(e) is the right-biased union d + e. */
  type Info = map<Field, string>

  /** One dict entry when the value is truthy, none otherwise. */
  function Item(f: Field, v: Option<string>): (d: Info)
    ensures f in d <==> Truthy(v)
    ensures forall g :: g in d ==> g == f && d[g] == v.value
  {
    if Truthy(v) then map[f := v.value] else map[]
  }

  // ---------------------------------------------------------------- the model's reply

  /** The `features` value of a reply: a JSON list of strings or anything else. */
  datatype FeaturesValue = FeatureList(items: seq<string>) | FeatureOther

  /** The fields of a decoded JSON reply (null and absent both read as None). */
  datatype Reply = Reply(
    description: Option<string>,
    features: Option<FeaturesValue>,
    ingredients: Option<string>,
    volume: Option<string>,
    howToUse: Option<string>,
    price: Option<string>)

  /** The value the request copies for a field: a truthy reply value as it is, and for
      `features` a non-empty list, serialised with `dumps`. */
  function CopiedValue(data: Reply, dumps: seq<string> -> string, f: Field): Option<string> {
    match f
    case Description => if Truthy(data.description) then data.description else None
    case Features =>
      if data.features.Some? && data.features.value.FeatureList? && data.features.value.items != []
      then Some(dumps(data.features.value.items)) else None
    case Ingredients => if Truthy(data.ingredients) then data.ingredients else None
    case Volume => if Truthy(data.volume) then data.volume else None
    case HowToUse => if Truthy(data.howToUse) then data.howToUse else None
    case Price => if Truthy(data.price) then data.price else None
    case _ => None
  }

  /** The dict the request builds from a decoded reply. */
  function Copied(data: Reply, dumps: seq<string> -> string): Info {
    map f: Field | CopiedValue(data, dumps, f).Some? :: CopiedValue(data, dumps, f).value
  }

  /** Every field is copied only from a truthy reply value, and then as is; `features` only
      from a non-empty list; the link and image fields never. */
  lemma CopiedFields(data: Reply, dumps: seq<string> -> string)
    ensures var info := Copied(data, dumps);
      && (Description in info <==> Truthy(data.description))
      && (Description in info ==> info[Description] == data.description.value)
      && (Ingredients in info <==> Truthy(data.ingredients))
      && (Ingredients in info ==> info[Ingredients] == data.ingredients.value)
      && (Volume in info <==> Truthy(data.volume))
      && (Volume in info ==> info[Volume] == data.volume.value)
      && (HowToUse in info <==> Truthy(data.howToUse))
      && (HowToUse in info ==> info[HowToUse] == data.howToUse.value)
      && (Price in info <==> Truthy(data.price))
      && (Price in info ==> info[Price] == data.price.value)
      && (Features in info <==>
            data.features.Some? && data.features.value.FeatureList? && data.features.value.items != [])
      && (Features in info ==> info[Features] == dumps(data.features.value.items))
      && AmazonUrl !in info && ImageUrl !in info && CosmeUrl !in info
  {
  }


  // ---------------------------------------------------------------- fence extraction

  /** The JSON text inside a reply: the text after the first "```json" (or, without one,
      the first "```") up to the next "```", stripped; the reply itself when it has no fence. */
  function ExtractJson(text: string): string {
    if Contains(text, "```json") then Strip(BeforeFirst(SecondPiece(text, "```json"), "```"))
    else if Contains(text, "```") then Strip(BeforeFirst(SecondPiece(text, "```"), "```"))
    else text
  }

  predicate NoBacktick(s: string) { forall i :: 0 <= i < |s| ==> s[i] != '`' }

  lemma {:induction false} FenceOnlyAt(body: string, post: string, j: nat)
    requires NoBacktick(body) && NoBacktick(post)
    requires OccursAt(body + "```" + post, "```", j)
    ensures j == |body|
  {
    var t := body + "```" + post;
    assert t[j..j + 3] == "```";
    assert t[j..j + 3][0] == t[j] && t[j..j + 3][2] == t[j + 2];
    ConcatAt(body, "```", j);
    ConcatAt(body + "```", post, j);
    ConcatAt(body + "```", post, j + 2);
  }

  /** Where a character of a concatenation comes from. */
  lemma ConcatAt(a: string, b: string, i: nat)
    ensures i < |a| ==> (a + b)[i] == a[i]
    ensures |a| <= i < |a| + |b| ==> (a + b)[i] == b[i - |a|]
  {
  }

  /** A fence starts with a backtick. */
  lemma FenceStartsWithBacktick(s: string, k: nat)
    requires OccursAt(s, "```", k)
    ensures k < |s| && s[k] == '`'
  {
    assert s[k..k + 3][0] == s[k];
  }

  /** Text without a backtick holds no fence. */
  lemma NoFenceIn(body: string)
    requires NoBacktick(body)
    ensures IndexOf(body, "```").None?
  {
    IndexOfFirst(body, "```");
    if IndexOf(body, "```").Some? {
      FenceStartsWithBacktick(body, IndexOf(body, "```").value);
      assert false;
    }
  }

  /** The first fence after a backtick-free body is the one that closes it. */
  lemma FenceCut(body: string, post: string)
    requires NoBacktick(body) && NoBacktick(post)
    ensures BeforeFirst(body + "```" + post, "```") == body
  {
    var t := body + "```" + post;
    IndexOfFirst(t, "```");
    assert OccursAt(t, "```", |body|) by { assert t[|body|..|body| + 3] == "```"; }
    FenceOnlyAt(body, post, IndexOf(t, "```").value);
    assert t[..|body|] == body;
  }

  /** A "```json" opener starts with a fence. */
  lemma JsonFenceIsFence(t: string, j: nat)
    requires OccursAt(t, "```json", j)
    ensures OccursAt(t, "```", j)
  {
    assert t[j..j + 3] == t[j..j + 7][..3];
  }

  /** Cutting at a later "```json" first does not change what the closing fence leaves. */
  lemma FenceCutJson(body: string, post: string)
    requires NoBacktick(body) && NoBacktick(post)
    ensures BeforeFirst(BeforeFirst(body + "```" + post, "```json"), "```") == body
  {
    var t := body + "```" + post;
    IndexOfFirst(t, "```json");
    match IndexOf(t, "```json")
    case None =>
      assert BeforeFirst(t, "```json") == t;
      FenceCut(body, post);
    case Some(j) =>
      JsonFenceIsFence(t, j);
      FenceOnlyAt(body, post, j);
      assert BeforeFirst(t, "```json") == t[..j] == body;
      NoFenceIn(body);
      assert BeforeFirst(body, "```") == body;
  }

  /** A reply fenced as ```json ... ``` with no backtick inside or after yields its body,
      stripped. */
  lemma ExtractJsonFenced(body: string, post: string)
    requires NoBacktick(body) && NoBacktick(post)
    ensures ExtractJson("```json" + body + "```" + post) == Strip(body)
  {
    var t := body + "```" + post;
    var s := "```json" + t;
    assert s == "```json" + body + "```" + post;
    assert s[..7] == "```json";
    assert IndexOf(s, "```json") == Some(0);
    assert s[7..] == t;
    assert SecondPiece(s, "```json") == BeforeFirst(t, "```json");
    FenceCutJson(body, post);
  }

  lemma {:induction false} ContainsLonger(s: string, p: string, q: string)
    requires p <= q && Contains(s, q)
    ensures Contains(s, p)
  {
    IndexOfFirst(s, q);
    var i := IndexOf(s, q).value;
    assert s[i..i + |p|] == s[i..i + |q|][..|p|];
    assert OccursAt(s, p, i);
    ContainsIff(s, p);
  }

  /** A reply without a fence is decoded as it is. */
  lemma ExtractJsonUnfenced(text: string)
    requires !Contains(text, "```")
    ensures ExtractJson(text) == text
  {
    if Contains(text, "```json") {
      ContainsLonger(text, "```", "```json");
    }
  }

  // ---------------------------------------------------------------- non-overwriting merge

  /** A field after enrich_product's update loop: the dict's value when it is truthy and the
      product's value is not, the product's value otherwise. */
  function Filled(p: Product, info: Info, f: Field): Option<string> {
    if f in info && info[f] != "" && !Truthy(Get(p, f)) then Some(info[f]) else Get(p, f)
  }

  /** The product after enrich_product's update loop. */
  function Fill(p: Product, info: Info): (q: Product)
    ensures forall f :: Get(q, f) == Filled(p, info, f)
    ensures q.id == p.id && q.name == p.name && q.brand == p.brand && q.category == p.category
    ensures q.cosmeRating == p.cosmeRating && q.createdAt == p.createdAt
  {
    p.(description := Filled(p, info, Description), features := Filled(p, info, Features),
       ingredients := Filled(p, info, Ingredients), volume := Filled(p, info, Volume),
       howToUse := Filled(p, info, HowToUse), price := Filled(p, info, Price),
       amazonUrl := Filled(p, info, AmazonUrl), imageUrl := Filled(p, info, ImageUrl),
       cosmeUrl := Filled(p, info, CosmeUrl))
  }

  /** The fields the loop fills: a truthy value in the dict, and a falsy one on the product. */
  function Fillable(p: Product, info: Info): set<Field> {
    set f | f in info && info[f] != "" && !Truthy(Get(p, f))
  }

  /** The merge never overwrites a truthy field, and changes only the fields it counts. */
  lemma FillNeverOverwrites(p: Product, info: Info)
    ensures forall f :: Truthy(Get(p, f)) ==> Get(Fill(p, info), f) == Get(p, f)
    ensures forall f :: Get(Fill(p, info), f) != Get(p, f) <==> f in Fillable(p, info)
    ensures forall f :: f in Fillable(p, info) ==> Get(Fill(p, info), f) == Some(info[f])
  {
  }

  lemma SameProduct(p: Product, q: Product)
    requires forall f :: Get(p, f) == Get(q, f)
    requires q.id == p.id && q.name == p.name && q.brand == p.brand && q.category == p.category
    requires q.cosmeRating == p.cosmeRating && q.createdAt == p.createdAt
    ensures p == q
  {
    assert Get(p, Description) == Get(q, Description) && Get(p, Features) == Get(q, Features);
    assert Get(p, Ingredients) == Get(q, Ingredients) && Get(p, Volume) == Get(q, Volume);
    assert Get(p, HowToUse) == Get(q, HowToUse) && Get(p, Price) == Get(q, Price);
    assert Get(p, AmazonUrl) == Get(q, AmazonUrl) && Get(p, ImageUrl) == Get(q, ImageUrl);
    assert Get(p, CosmeUrl) == Get(q, CosmeUrl);
  }

  lemma FilledAdd(product: Product, visited: Info, f: Field, v: string, g: Field)
    requires f !in visited
    ensures Filled(product, visited[f := v], g) ==
      if g == f then (if v != "" && !Truthy(Get(product, f)) then Some(v) else Get(product, f))
      else Filled(product, visited, g)
  {
  }

  /** Adding one more dict entry to the visited ones is one setattr, or none. */
  lemma FillStep(product: Product, visited: Info, f: Field, v: string)
    requires f !in visited
    ensures var before := Fill(product, visited);
      Fill(product, visited[f := v]) ==
        if v != "" && !Truthy(Get(before, f)) then Set(before, f, v) else before
  {
    var before := Fill(product, visited);
    var after := Fill(product, visited[f := v]);
    var expected := if v != "" && !Truthy(Get(before, f)) then Set(before, f, v) else before;
    assert Get(before, f) == Get(product, f);
    forall g ensures Get(after, g) == Get(expected, g) {
      FilledAdd(product, visited, f, v, g);
    }
    SameProduct(after, expected);
  }

  /** An empty dict changes nothing; restricting a dict to all its keys gives it back. */
  lemma FillNothing(p: Product, info: Info)
    ensures Fill(p, Restrict(info, {})) == p && Restrict(info, info.Keys) == info
  {
    assert Restrict(info, {}) == map[];
    SameProduct(Fill(p, map[]), p);
  }

  lemma RestrictAdd(info: Info, done: set<Field>, f: Field)
    requires f in info
    ensures Restrict(info, done + {f}) == Restrict(info, done)[f := info[f]]
  {
  }

  lemma FillableRestrict(p: Product, info: Info, done: set<Field>, f: Field)
    requires f in info && f !in done
    ensures Fillable(p, Restrict(info, done + {f})) ==
      Fillable(p, Restrict(info, done)) + (if info[f] != "" && !Truthy(Get(p, f)) then {f} else {})
  {
  }

  function Restrict(info: Info, keys: set<Field>): Info {
    map f | f in info && f in keys :: info[f]
  }

  /** One visit of the update loop keeps the loop's invariant: the product so far is the
      merge of the visited entries, and the count is the number of fields they filled. */
  lemma FillVisit(product: Product, info: Info, done: set<Field>, f: Field, p: Product, updated: nat)
    requires f in info && f !in done
    requires p == Fill(product, Restrict(info, done))
    requires updated == |Fillable(product, Restrict(info, done))|
    ensures var fills := info[f] != "" && !Truthy(Get(p, f));
      && Fill(product, Restrict(info, done + {f})) == (if fills then Set(p, f, info[f]) else p)
      && |Fillable(product, Restrict(info, done + {f}))| == updated + (if fills then 1 else 0)
  {
    RestrictAdd(info, done, f);
    FillStep(product, Restrict(info, done), f, info[f]);
    FillableRestrict(product, info, done, f);
    assert f !in Restrict(info, done);
    assert Get(p, f) == Get(product, f);
    assert f !in Fillable(product, Restrict(info, done));
  }

  /** enrich_product's update loop, visiting the dict's entries in some order: each truthy
      value is set where the product's field is falsy, and the settings are counted. */
  method FillFields(product: Product, info: Info) returns (p: Product, updated: nat)
    ensures p == Fill(product, info) && updated == |Fillable(product, info)|
  {
    p := product;
    updated := 0;
    var done: set<Field> := {};
    var todo := info.Keys;
    FillNothing(product, info);
    while todo != {}
      invariant todo == info.Keys - done && done <= info.Keys
      invariant p == Fill(product, Restrict(info, done))
      invariant updated == |Fillable(product, Restrict(info, done))|
      decreases todo
    {
      var field :| field in todo;
      var value := info[field];
      FillVisit(product, info, done, field, p, updated);
      if value != "" && !Truthy(Get(p, field)) {
        p := Set(p, field, value);
        updated := updated + 1;
      }
      done := done + {field};
      todo := todo - {field};
    }
    assert done == info.Keys;
  }

  // ---------------------------------------------------------------- the search pages

  /** What the Amazon search yields: the first hit's link, price text and image source. */
  datatype AmazonPage = AmazonPage(href: Option<string>, price: Option<string>, imageSrc: Option<string>)

  /** fetch_amazon_url_and_price's dict after the truthiness filter of enrich_product. */
  function AmazonItems(page: AmazonPage): Info {
    var url := match page.href
      case None => None
      case Some(h) => Some(BeforeFirst("https://www.amazon.co.jp" + h, "/ref="));
    Item(AmazonUrl, url) + Item(Price, page.price) + Item(ImageUrl, page.imageSrc)
  }

  /** fetch_cosme_url's dict after the truthiness filter: a relative link is made absolute. */
  function CosmeItems(href: Option<string>): Info {
    match href
    case None => map[]
    case Some(h) => map[CosmeUrl := if "http" <= h then h else "https://www.cosme.net" + h]
  }

  // ---------------------------------------------------------------- the key ring

  /** A model request: the product asked about, the key in use and the attempt number. */
  datatype Call = Call(name: Option<string>, brand: Option<string>, category: Option<string>,
                       key: string, attempt: nat)

  /** Only errors mentioning "429" or (in any case) "quota" rotate the key and retry. */
  predicate RateLimited(message: string) {
    Contains(message, "429") || Contains(Lower(message), "quota")
  }

  /** The result of generate_product_details: the copied fields, the key index and the key
      of the model afterwards, and how many key switches it made. */
  datatype Outcome = Outcome(info: Info, index: nat, modelKey: string, switches: nat)

  /** One request: the reply stripped, its fenced JSON extracted and decoded. */
  function Attempt(generate: Call -> Result<string, string>, parse: string -> Result<Reply, string>,
                   call: Call): Result<Reply, string>
  {
    match generate(call)
    case Err(e) => Err(e)
    case Ok(text) => parse(ExtractJson(Strip(text)))
  }

  /** The index after one switch of get_next_model on n keys: the next one, wrapping around. */
  function Next(index: nat, n: nat): (r: nat)
    requires index < n
    ensures r < n
  {
    if index + 1 < n then index + 1 else 0
  }

  /** Next is the script's `(current_key_index + 1) % len(API_KEYS)`. */
  lemma NextIsMod(index: nat, n: nat)
    requires index < n
    ensures Next(index, n) == (index + 1) % n
  {
    if index + 1 == n {
      assert (index + 1) % n == 0;
    }
  }

  /** The index after k switches of get_next_model on n keys, one step at a time. */
  function Advance(index: nat, k: nat, n: nat): (r: nat)
    requires index < n
    ensures r < n
    decreases k
  {
    if k == 0 then index else Advance(Next(index, n), k - 1, n)
  }

  /** A request of generate_product_details, as one function of the call. */
  function Asker(generate: Call -> Result<string, string>, parse: string -> Result<Reply, string>)
    : Call -> Result<Reply, string>
  {
    call => Attempt(generate, parse, call)
  }

  /** The attempts from `attempt` on, out of len(API_KEYS) + 1, each asked through `ask`. */
  function Retry(keys: seq<string>, index: nat, modelKey: string,
                 name: Option<string>, brand: Option<string>, category: Option<string>,
                 ask: Call -> Result<Reply, string>,
                 dumps: seq<string> -> string, attempt: nat): Outcome
    requires index < |keys|
    decreases |keys| + 1 - attempt
  {
    if attempt > |keys| then Outcome(map[], index, modelKey, 0)
    else match ask(Call(name, brand, category, modelKey, attempt))
      case Ok(data) => Outcome(Copied(data, dumps), index, modelKey, 0)
      case Err(e) =>
        if RateLimited(e) then
          var o := Retry(keys, Next(index, |keys|), keys[index], name, brand, category,
                         ask, dumps, attempt + 1);
          o.(switches := o.switches + 1)
        else Outcome(map[], index, modelKey, 0)
  }

  /** Two outcomes end with the same fields and key state, whatever their switch counts. */
  predicate SameEnd(a: Outcome, b: Outcome) {
    a.info == b.info && a.index == b.index && a.modelKey == b.modelKey
  }

  /** Past the last attempt the loop gives no fields and leaves the key state alone. */
  lemma RetryExhausted(keys: seq<string>, index: nat, modelKey: string,
                       name: Option<string>, brand: Option<string>, category: Option<string>,
                       ask: Call -> Result<Reply, string>,
                       dumps: seq<string> -> string, attempt: nat)
    requires index < |keys| && attempt > |keys|
    ensures Retry(keys, index, modelKey, name, brand, category, ask, dumps, attempt) == Outcome(map[], index, modelKey, 0)
  {
  }

  /** One attempt of the retry loop: either it stops with no switch, or it switches to the
      next key and counts one switch more than the attempts after it. */
  lemma RetryStep(keys: seq<string>, index: nat, modelKey: string,
                  name: Option<string>, brand: Option<string>, category: Option<string>,
                  ask: Call -> Result<Reply, string>,
                  dumps: seq<string> -> string, attempt: nat)
    requires index < |keys|
    ensures var o := Retry(keys, index, modelKey, name, brand, category, ask, dumps, attempt);
      || (o.switches == 0 && o.index == index && o.modelKey == modelKey)
      || (attempt <= |keys| &&
          var rest := Retry(keys, Next(index, |keys|), keys[index], name, brand, category,
                            ask, dumps, attempt + 1);
          o == rest.(switches := rest.switches + 1))
  {
  }

  /** What one attempt decides: a decoded reply ends with its copied fields, a rate-limit
      error switches to the next key, any other error ends with no fields. */
  lemma RetryCases(keys: seq<string>, index: nat, modelKey: string,
                   name: Option<string>, brand: Option<string>, category: Option<string>,
                   ask: Call -> Result<Reply, string>,
                   dumps: seq<string> -> string, attempt: nat)
    requires index < |keys| && attempt <= |keys|
    ensures var o := Retry(keys, index, modelKey, name, brand, category, ask, dumps, attempt);
      var r := ask(Call(name, brand, category, modelKey, attempt));
      && (r.Ok? ==> o == Outcome(Copied(r.value, dumps), index, modelKey, 0))
      && (r.Err? && RateLimited(r.error) ==>
            var rest := Retry(keys, Next(index, |keys|), keys[index], name, brand, category,
                              ask, dumps, attempt + 1);
            o == rest.(switches := rest.switches + 1))
      && (r.Err? && !RateLimited(r.error) ==> o == Outcome(map[], index, modelKey, 0))
  {
  }

  /** The index and key after one more switch from `index`, given those after the switches
      from the next index. */
  lemma SwitchStep(keys: seq<string>, index: nat, rest: Outcome)
    requires index < |keys|
    requires rest.index == Advance(Next(index, |keys|), rest.switches, |keys|)
    requires rest.switches > 0 ==> rest.modelKey == keys[Advance(Next(index, |keys|), rest.switches - 1, |keys|)]
    requires rest.switches == 0 ==> rest.modelKey == keys[index]
    ensures var o := rest.(switches := rest.switches + 1);
      && o.index == Advance(index, o.switches, |keys|)
      && o.modelKey == keys[Advance(index, o.switches - 1, |keys|)]
  {
    if rest.switches > 0 {
      assert Advance(index, rest.switches, |keys|) == Advance(Next(index, |keys|), rest.switches - 1, |keys|);
    }
  }

  /** The retries make at most len(API_KEYS) + 1 key switches, each advancing the index by
      one and configuring the key the index pointed at. */
  lemma {:induction false} RetryBounds(keys: seq<string>, index: nat, modelKey: string,
                                       name: Option<string>, brand: Option<string>, category: Option<string>,
                                       ask: Call -> Result<Reply, string>,
                                       dumps: seq<string> -> string, attempt: nat)
    requires index < |keys| && attempt <= |keys| + 1
    ensures var o := Retry(keys, index, modelKey, name, brand, category, ask, dumps, attempt);
      && o.switches <= |keys| + 1 - attempt
      && o.index == Advance(index, o.switches, |keys|)
      && (o.switches > 0 ==> o.modelKey == keys[Advance(index, o.switches - 1, |keys|)])
      && (o.switches == 0 ==> o.modelKey == modelKey)
    decreases |keys| + 1 - attempt
  {
    var o := Retry(keys, index, modelKey, name, brand, category, ask, dumps, attempt);
    RetryStep(keys, index, modelKey, name, brand, category, ask, dumps, attempt);
    if !(o.switches == 0 && o.index == index && o.modelKey == modelKey) {
      var next := Next(index, |keys|);
      var rest := Retry(keys, next, keys[index], name, brand, category, ask, dumps, attempt + 1);
      RetryBounds(keys, next, keys[index], name, brand, category, ask, dumps, attempt + 1);
      SwitchStep(keys, index, rest);
    }
  }

  /** The fields returned are none, or those copied from one decoded reply. */
  lemma {:induction false} RetryInfo(keys: seq<string>, index: nat, modelKey: string,
                                     name: Option<string>, brand: Option<string>, category: Option<string>,
                                     ask: Call -> Result<Reply, string>,
                                     dumps: seq<string> -> string, attempt: nat)
    requires index < |keys|
    ensures var o := Retry(keys, index, modelKey, name, brand, category, ask, dumps, attempt);
      o.info == map[] || exists data :: o.info == Copied(data, dumps)
    decreases |keys| + 1 - attempt
  {
    if attempt <= |keys| {
      var r := ask(Call(name, brand, category, modelKey, attempt));
      if r.Err? && RateLimited(r.error) {
        var next := Next(index, |keys|);
        RetryInfo(keys, next, keys[index], name, brand, category, ask, dumps, attempt + 1);
      }
    }
  }

  /** One request of generate_product_details: a failed request passes its error on; a
      stripped reply of the form ```json body ``` rest decodes the stripped body; a stripped
      reply without a fence decodes as it is. */
  method Ask(generate: Call -> Result<string, string>, parse: string -> Result<Reply, string>, call: Call)
    returns (r: Result<Reply, string>)
    ensures r == Asker(generate, parse)(call)
    ensures generate(call).Err? ==> r == Err(generate(call).error)
    ensures generate(call).Ok? ==>
      forall body, rest :: NoBacktick(body) && NoBacktick(rest)
                           && Strip(generate(call).value) == "```json" + body + "```" + rest ==>
        r == parse(Strip(body))
    ensures generate(call).Ok? && !Contains(Strip(generate(call).value), "```") ==>
      r == parse(Strip(generate(call).value))
  {
    if generate(call).Ok? {
      var stripped := Strip(generate(call).value);
      forall body, rest | NoBacktick(body) && NoBacktick(rest) && stripped == "```json" + body + "```" + rest
        ensures ExtractJson(stripped) == Strip(body)
      {
        ExtractJsonFenced(body, rest);
      }
      if !Contains(stripped, "```") {
        ExtractJsonUnfenced(stripped);
      }
    }
    var reply := generate(call);
    if reply.Err? {
      return Err(reply.error);
    }
    var text := Strip(reply.value);
    text := ExtractJson(text);
    r := parse(text);
  }

  /** The script's global key state: API_KEYS, current_key_index and the key the current
      model object was configured with. */
  class KeyRing {
    const keys: seq<string>
    var currentKeyIndex: nat
    var modelKey: Option<string>

    /** Module load: the key list from the environment, and the index starting at 5. */
    constructor (getenv: string -> Option<string>)
      ensures keys == ApiKeys(getenv) && currentKeyIndex == 5 && modelKey.None?
    {
      keys := ApiKeys(getenv);
      currentKeyIndex := 5;
      modelKey := None;
    }

    /** A model object exists and the index points into the key list. */
    predicate Ready()
      reads this
    {
      keys != [] && currentKeyIndex < |keys| && modelKey.Some?
    }

    /** get_next_model: exits when there are no keys and fails with an index error when the
      index lies past the list; otherwise it configures the key at the index and advances
      the index by one, wrapping around. */
    method GetNextModel() returns (r: Result<string, string>)
      modifies this
      ensures keys == [] ==> r == Err("exit") && unchanged(this)
      ensures keys != [] && old(currentKeyIndex) >= |keys| ==> r == Err("IndexError") && unchanged(this)
      ensures keys != [] && old(currentKeyIndex) < |keys| ==>
        && r == Ok(keys[old(currentKeyIndex)])
        && currentKeyIndex == (old(currentKeyIndex) + 1) % |keys|
        && modelKey == Some(keys[old(currentKeyIndex)])
        && Ready()
    {
      if keys == [] {
        return Err("exit");
      }
      if currentKeyIndex >= |keys| {
        return Err("IndexError");
      }
      var key := keys[currentKeyIndex];
      modelKey := Some(key);
      currentKeyIndex := (currentKeyIndex + 1) % |keys|;
      return Ok(key);
    }

    /** The rate-limit branch of generate_product_details: get_next_model, which configures
      the key at the index and moves the index on. */
    method SwitchKey()
      requires Ready()
      modifies this
      ensures Ready()
      ensures currentKeyIndex == Next(old(currentKeyIndex), |keys|) && modelKey == Some(keys[old(currentKeyIndex)])
    {
      NextIsMod(currentKeyIndex, |keys|);
      var _ := GetNextModel();
    }

    /** One pass of generate_product_details's loop: a decoded reply ends it with the copied
      fields; a rate-limit error switches the key and goes on; any other error ends it with
      no fields. */
    method TryOnce(name: Option<string>, brand: Option<string>, category: Option<string>,
                   generate: Call -> Result<string, string>,
                   parse: string -> Result<Reply, string>,
                   dumps: seq<string> -> string, attempt: nat)
      returns (done: bool, info: Info)
      requires Ready() && attempt <= |keys|
      modifies this
      ensures Ready()
      ensures var here := Retry(keys, old(currentKeyIndex), old(modelKey).value, name, brand, category,
                                Asker(generate, parse), dumps, attempt);
        && (done ==> here == Outcome(info, currentKeyIndex, modelKey.value, 0))
        && (!done ==> info == map[])
        && (!done ==>
              var rest := Retry(keys, currentKeyIndex, modelKey.value, name, brand, category,
                                Asker(generate, parse), dumps, attempt + 1);
              here == rest.(switches := rest.switches + 1))
    {
      RetryCases(keys, currentKeyIndex, modelKey.value, name, brand, category, Asker(generate, parse), dumps, attempt);
      var data := Ask(generate, parse, Call(name, brand, category, modelKey.value, attempt));
      if data.Ok? {
        return true, Copied(data.value, dumps);
      }
      if RateLimited(data.error) {
        SwitchKey();
        return false, map[];
      }
      return true, map[];
    }

    /** generate_product_details: up to len(API_KEYS) + 1 requests; a decoded reply gives its
      copied fields; a rate-limit error switches the key and retries; any other error, and
      running out of attempts, gives no fields. */
    method GenerateProductDetails(name: Option<string>, brand: Option<string>, category: Option<string>,
                                  generate: Call -> Result<string, string>,
                                  parse: string -> Result<Reply, string>,
                                  dumps: seq<string> -> string)
      returns (info: Info)
      requires Ready()
      modifies this
      ensures Ready()
      ensures var o := Retry(keys, old(currentKeyIndex), old(modelKey).value, name, brand, category,
                             Asker(generate, parse), dumps, 0);
        info == o.info && currentKeyIndex == o.index && modelKey == Some(o.modelKey)
    {
      ghost var ask := Asker(generate, parse);
      ghost var start := Retry(keys, currentKeyIndex, modelKey.value, name, brand, category, ask, dumps, 0);
      info := map[];
      var attempt := 0;
      while attempt < |keys| + 1
        invariant Ready() && attempt <= |keys| + 1 && info == map[]
        invariant SameEnd(start, Retry(keys, currentKeyIndex, modelKey.value, name, brand, category, ask, dumps, attempt))
        decreases |keys| + 1 - attempt
      {
        var done;
        done, info := TryOnce(name, brand, category, generate, parse, dumps, attempt);
        if done {
          return;
        }
        attempt := attempt + 1;
      }
      RetryExhausted(keys, currentKeyIndex, modelKey.value, name, brand, category, ask, dumps, attempt);
    }
  }

  // ---------------------------------------------------------------- enrich_product and main

  /** The values enrich_product gathers: the model's fields, then the Amazon values when the
      product has no Amazon link, then the @cosme link when it has none. */
  function Gathered(p: Product, generated: Info, amazon: AmazonPage, cosme: Option<string>): Info {
    var withAmazon := if Truthy(p.amazonUrl) then generated else generated + AmazonItems(amazon);
    if Truthy(p.cosmeUrl) then withAmazon else withAmazon + CosmeItems(cosme)
  }

  /** A lookup's result matters only when the product lacks that link. */
  lemma GatheredIgnoresLookups(p: Product, generated: Info, amazon: AmazonPage, amazon2: AmazonPage,
                               cosme: Option<string>, cosme2: Option<string>)
    ensures Truthy(p.amazonUrl) ==>
      Gathered(p, generated, amazon, cosme) == Gathered(p, generated, amazon2, cosme)
    ensures Truthy(p.cosmeUrl) ==>
      Gathered(p, generated, amazon, cosme) == Gathered(p, generated, amazon, cosme2)
  {
  }

  /** The lookups contribute only non-empty values. */
  lemma LookupValuesNonEmpty(amazon: AmazonPage, cosme: Option<string>)
    ensures forall f :: f in AmazonItems(amazon) ==> AmazonItems(amazon)[f] != ""
    ensures forall f :: f in CosmeItems(cosme) ==> CosmeItems(cosme)[f] != ""
  {
    if amazon.href.Some? {
      BeforeFirstKeepsHead("https://www.amazon.co.jp" + amazon.href.value, "/ref=");
    }
  }

  /** For a product lacking a link, the lookup's values win over the model's values for the
      same fields; nothing else enters the gathered dict. */
  lemma GatheredLookupsWin(p: Product, generated: Info, amazon: AmazonPage, cosme: Option<string>)
    ensures !Truthy(p.amazonUrl) ==> forall f :: f in AmazonItems(amazon) ==>
      Gathered(p, generated, amazon, cosme)[f] == AmazonItems(amazon)[f]
    ensures !Truthy(p.cosmeUrl) ==> forall f :: f in CosmeItems(cosme) ==>
      Gathered(p, generated, amazon, cosme)[f] == CosmeItems(cosme)[f]
    ensures forall f :: f in Gathered(p, generated, amazon, cosme) ==>
      f in generated || f in AmazonItems(amazon) || f in CosmeItems(cosme)
  {
    assert forall f :: f in AmazonItems(amazon) ==> f != CosmeUrl;
  }

  /** main's skip rule: a product is left alone when it has ingredients and directions, a
      description of at least 50 characters, an Amazon link and an image. */
  predicate WellFilled(p: Product) {
    && Truthy(p.ingredients) && Truthy(p.howToUse)
    && |p.description.GetOr("")| >= 50
    && Truthy(p.amazonUrl) && Truthy(p.imageUrl)
  }

  /** The fields in which two products differ. */
  function Changed(p: Product, q: Product): set<Field> {
    set f | Get(q, f) != Get(p, f)
  }

  /** The number of changed fields over two equally long product lists. */
  function ChangedTotal(before: seq<Product>, after: seq<Product>): nat
    requires |before| == |after|
  {
    if before == [] then 0
    else ChangedTotal(before[..|before| - 1], after[..|after| - 1])
         + |Changed(before[|before| - 1], after[|after| - 1])|
  }

  lemma ChangedTotalStep(before: seq<Product>, after: seq<Product>, i: nat)
    requires |before| == |after| && i < |before|
    ensures ChangedTotal(before[..i + 1], after[..i + 1]) ==
      ChangedTotal(before[..i], after[..i]) + |Changed(before[i], after[i])|
  {
    assert before[..i + 1][..i] == before[..i] && after[..i + 1][..i] == after[..i];
  }

  /** The search pages the lookups would read for a product (the scraping is not modelled). */
  datatype Lookups = Lookups(
    amazon: (Option<string>, Option<string>) -> AmazonPage,
    cosme: (Option<string>, Option<string>) -> Option<string>)

  /** The model's fields for a product, with the key state before the request. */
  function Generated(keys: seq<string>, index: nat, modelKey: string, p: Product,
                     generate: Call -> Result<string, string>, parse: string -> Result<Reply, string>,
                     dumps: seq<string> -> string): Outcome
    requires index < |keys|
  {
    Retry(keys, index, modelKey, p.name, p.brand, p.category, Asker(generate, parse), dumps, 0)
  }

  /** The values merged into product p by enrich_product. */
  function InfoFor(keys: seq<string>, index: nat, modelKey: string, p: Product,
                   generate: Call -> Result<string, string>, parse: string -> Result<Reply, string>,
                   dumps: seq<string> -> string, pages: Lookups): Info
    requires index < |keys|
  {
    Gathered(p, Generated(keys, index, modelKey, p, generate, parse, dumps).info,
             pages.amazon(p.name, p.brand), pages.cosme(p.name, p.brand))
  }

  /** enrich_product on row i: the model's fields, the lookups for the missing links, merged
      without overwriting; returns the number of fields set and whether it committed. */
  method EnrichProduct(ring: KeyRing, db: Store, i: nat,
                       generate: Call -> Result<string, string>, parse: string -> Result<Reply, string>,
                       dumps: seq<string> -> string, pages: Lookups)
    returns (updated: nat, committed: bool)
    requires ring.Ready() && i < |db.products|
    modifies ring, db
    ensures ring.Ready()
    ensures var p := old(db.products[i]);
      var o := Generated(ring.keys, old(ring.currentKeyIndex), old(ring.modelKey).value, p,
                         generate, parse, dumps);
      var info := InfoFor(ring.keys, old(ring.currentKeyIndex), old(ring.modelKey).value, p,
                          generate, parse, dumps, pages);
      && db.products == old(db.products)[i := Fill(p, info)]
      && updated == |Fillable(p, info)|
      && ring.currentKeyIndex == o.index && ring.modelKey == Some(o.modelKey)
    ensures db.videos == old(db.videos) && db.reviews == old(db.reviews)
    ensures committed <==> updated > 0
  {
    var product := db.products[i];
    var aiInfo := ring.GenerateProductDetails(product.name, product.brand, product.category,
                                              generate, parse, dumps);
    if !Truthy(product.amazonUrl) {
      aiInfo := aiInfo + AmazonItems(pages.amazon(product.name, product.brand));
    }
    if !Truthy(product.cosmeUrl) {
      aiInfo := aiInfo + CosmeItems(pages.cosme(product.name, product.brand));
    }
    var p;
    p, updated := FillFields(product, aiInfo);
    db.products := db.products[i := p];
    committed := updated > 0;
  }

  /** enrich_product's effect on one product: the fields it changes are exactly the ones it
      counts, and a field that had a value keeps it. */
  lemma EnrichChangesOnlyEmpty(p: Product, info: Info)
    ensures Changed(p, Fill(p, info)) == Fillable(p, info)
    ensures forall f :: Truthy(Get(p, f)) ==> Get(Fill(p, info), f) == Get(p, f)
  {
    FillNeverOverwrites(p, info);
  }

  /** What every row keeps through main: the untouched columns, and every field with a value. */
  predicate Kept(p: Product, q: Product) {
    && q.id == p.id && q.name == p.name && q.brand == p.brand && q.category == p.category
    && q.cosmeRating == p.cosmeRating && q.createdAt == p.createdAt
    && forall f :: Truthy(Get(p, f)) ==> Get(q, f) == Get(p, f)
  }

  /** The key state of the script between two products: current_key_index and the key of
      the current model object. */
  datatype KeyState = KeyState(index: nat, modelKey: string)

  /** One product of main's loop, on values: a well-filled product and the key state stay
      as they are; any other product becomes Fill of its gathered values, and the key state
      becomes the one generate_product_details ends with. */
  function EnrichStep(keys: seq<string>, ks: KeyState, p: Product,
                      generate: Call -> Result<string, string>, parse: string -> Result<Reply, string>,
                      dumps: seq<string> -> string, pages: Lookups): (r: (Product, KeyState))
    requires ks.index < |keys|
    ensures r.1.index < |keys|
  {
    if WellFilled(p) then (p, ks)
    else
      var o := Generated(keys, ks.index, ks.modelKey, p, generate, parse, dumps);
      RetryBounds(keys, ks.index, ks.modelKey, p.name, p.brand, p.category, Asker(generate, parse), dumps, 0);
      (Fill(p, InfoFor(keys, ks.index, ks.modelKey, p, generate, parse, dumps, pages)), KeyState(o.index, o.modelKey))
  }

  /** main's loop over the products in order, threading the key state from one product to
      the next. */
  function EnrichRun(keys: seq<string>, ks: KeyState, ps: seq<Product>,
                     generate: Call -> Result<string, string>, parse: string -> Result<Reply, string>,
                     dumps: seq<string> -> string, pages: Lookups): (r: (seq<Product>, KeyState))
    requires ks.index < |keys|
    ensures |r.0| == |ps| && r.1.index < |keys|
  {
    if ps == [] then ([], ks)
    else
      var (done, mid) := EnrichRun(keys, ks, ps[..|ps| - 1], generate, parse, dumps, pages);
      var (q, after) := EnrichStep(keys, mid, ps[|ps| - 1], generate, parse, dumps, pages);
      (done + [q], after)
  }

  /** A product that is not well filled is enriched: exactly its fillable fields change,
      and every field that had a value keeps it. */
  lemma EnrichStepFills(keys: seq<string>, ks: KeyState, p: Product,
                        generate: Call -> Result<string, string>, parse: string -> Result<Reply, string>,
                        dumps: seq<string> -> string, pages: Lookups)
    requires ks.index < |keys|
    ensures var q := EnrichStep(keys, ks, p, generate, parse, dumps, pages).0;
      var info := InfoFor(keys, ks.index, ks.modelKey, p, generate, parse, dumps, pages);
      && (WellFilled(p) ==> q == p)
      && (!WellFilled(p) ==> Changed(p, q) == Fillable(p, info))
      && Kept(p, q)
  {
    var info := InfoFor(keys, ks.index, ks.modelKey, p, generate, parse, dumps, pages);
    EnrichChangesOnlyEmpty(p, info);
    FillNeverOverwrites(p, info);
  }

  /** A list of well-filled products goes through main unchanged, and no request is made, so
      the key state stays too. */
  lemma {:induction false} EnrichRunAllWellFilled(keys: seq<string>, ks: KeyState, ps: seq<Product>,
                                                  generate: Call -> Result<string, string>,
                                                  parse: string -> Result<Reply, string>,
                                                  dumps: seq<string> -> string, pages: Lookups)
    requires ks.index < |keys|
    requires forall k :: 0 <= k < |ps| ==> WellFilled(ps[k])
    ensures EnrichRun(keys, ks, ps, generate, parse, dumps, pages) == (ps, ks)
  {
    if ps != [] {
      EnrichRunAllWellFilled(keys, ks, ps[..|ps| - 1], generate, parse, dumps, pages);
      assert ps[..|ps| - 1] + [ps[|ps| - 1]] == ps;
    }
  }

  /** The run adds one product's step to the run over the ones before it. */
  lemma EnrichRunPrefix(keys: seq<string>, ks: KeyState, ps: seq<Product>, i: nat,
                        generate: Call -> Result<string, string>, parse: string -> Result<Reply, string>,
                        dumps: seq<string> -> string, pages: Lookups)
    requires ks.index < |keys| && i < |ps|
    ensures var (done, mid) := EnrichRun(keys, ks, ps[..i], generate, parse, dumps, pages);
      var (q, after) := EnrichStep(keys, mid, ps[i], generate, parse, dumps, pages);
      EnrichRun(keys, ks, ps[..i + 1], generate, parse, dumps, pages) == (done + [q], after)
  {
    assert ps[..i + 1][..i] == ps[..i];
  }

  /** Through the whole run every product keeps its identity columns and set fields, and a
      well-filled one stays as it was. */
  lemma {:induction false} EnrichRunKeeps(keys: seq<string>, ks: KeyState, ps: seq<Product>,
                                          generate: Call -> Result<string, string>,
                                          parse: string -> Result<Reply, string>,
                                          dumps: seq<string> -> string, pages: Lookups)
    requires ks.index < |keys|
    ensures var qs := EnrichRun(keys, ks, ps, generate, parse, dumps, pages).0;
      forall k :: 0 <= k < |ps| ==> Kept(ps[k], qs[k]) && (WellFilled(ps[k]) ==> qs[k] == ps[k])
  {
    if ps != [] {
      var init, last := ps[..|ps| - 1], ps[|ps| - 1];
      assert init + [last] == ps;
      EnrichRunKeeps(keys, ks, init, generate, parse, dumps, pages);
      var (done, mid) := EnrichRun(keys, ks, init, generate, parse, dumps, pages);
      EnrichStepFills(keys, mid, last, generate, parse, dumps, pages);
      var q := EnrichStep(keys, mid, last, generate, parse, dumps, pages).0;
      var qs := EnrichRun(keys, ks, ps, generate, parse, dumps, pages).0;
      assert qs == done + [q];
      KeptAppend(init, done, last, q);
    }
  }

  /** Kept and the skip rule hold along two lists when they hold along their prefixes and
      their last elements. */
  lemma KeptAppend(ps: seq<Product>, qs: seq<Product>, p: Product, q: Product)
    requires |ps| == |qs|
    requires forall k :: 0 <= k < |ps| ==> Kept(ps[k], qs[k]) && (WellFilled(ps[k]) ==> qs[k] == ps[k])
    requires Kept(p, q) && (WellFilled(p) ==> q == p)
    ensures forall k :: 0 <= k < |ps| + 1 ==>
      Kept((ps + [p])[k], (qs + [q])[k]) && (WellFilled((ps + [p])[k]) ==> (qs + [q])[k] == (ps + [p])[k])
  {
    forall k | 0 <= k < |ps| + 1
      ensures Kept((ps + [p])[k], (qs + [q])[k]) && (WellFilled((ps + [p])[k]) ==> (qs + [q])[k] == (ps + [p])[k])
    {
      if k < |ps| {
        assert (ps + [p])[k] == ps[k] && (qs + [q])[k] == qs[k];
      } else {
        assert (ps + [p])[k] == p && (qs + [q])[k] == q;
      }
    }
  }

  /** One product of main's loop. */
  method EnrichAt(ring: KeyRing, db: Store, i: nat,
                  generate: Call -> Result<string, string>, parse: string -> Result<Reply, string>,
                  dumps: seq<string> -> string, pages: Lookups)
    returns (fieldsUpdated: nat)
    requires ring.Ready() && i < |db.products|
    modifies ring, db
    ensures ring.Ready()
    ensures |db.products| == |old(db.products)|
    ensures (db.products[i], KeyState(ring.currentKeyIndex, ring.modelKey.value)) ==
            EnrichStep(ring.keys, KeyState(old(ring.currentKeyIndex), old(ring.modelKey).value),
                       old(db.products[i]), generate, parse, dumps, pages)
    ensures db.products == old(db.products)[i := db.products[i]]
    ensures fieldsUpdated == |Changed(old(db.products[i]), db.products[i])|
    ensures db.videos == old(db.videos) && db.reviews == old(db.reviews)
  {
    var product := db.products[i];
    if !WellFilled(product) {
      ghost var index, key := ring.currentKeyIndex, ring.modelKey.value;
      var committed;
      fieldsUpdated, committed := EnrichProduct(ring, db, i, generate, parse, dumps, pages);
      EnrichChangesOnlyEmpty(product, InfoFor(ring.keys, index, key, product, generate, parse, dumps, pages));
    } else {
      fieldsUpdated := 0;
      assert Changed(product, product) == {};
    }
  }

  /** One pass of main's loop over the products from `start`: product i goes through
      EnrichAt, which extends the run and the count by one product. */
  method EnrichNext(ring: KeyRing, db: Store, i: nat, ghost start: seq<Product>, ghost ks0: KeyState,
                    totalUpdated: nat,
                    generate: Call -> Result<string, string>, parse: string -> Result<Reply, string>,
                    dumps: seq<string> -> string, pages: Lookups)
    returns (total: nat)
    requires ring.Ready() && ks0.index < |ring.keys|
    requires i < |db.products| == |start|
    requires forall k :: i <= k < |start| ==> db.products[k] == start[k]
    requires (db.products[..i], KeyState(ring.currentKeyIndex, ring.modelKey.value)) ==
             EnrichRun(ring.keys, ks0, start[..i], generate, parse, dumps, pages)
    requires totalUpdated == ChangedTotal(start[..i], db.products[..i])
    modifies ring, db
    ensures ring.Ready() && |db.products| == |start|
    ensures forall k :: i + 1 <= k < |start| ==> db.products[k] == start[k]
    ensures (db.products[..i + 1], KeyState(ring.currentKeyIndex, ring.modelKey.value)) ==
            EnrichRun(ring.keys, ks0, start[..i + 1], generate, parse, dumps, pages)
    ensures total == ChangedTotal(start[..i + 1], db.products[..i + 1])
    ensures db.videos == old(db.videos) && db.reviews == old(db.reviews)
  {
    ghost var before := db.products;
    var fieldsUpdated := EnrichAt(ring, db, i, generate, parse, dumps, pages);
    total := totalUpdated + fieldsUpdated;
    assert db.products[..i] == before[..i];
    EnrichRunPrefix(ring.keys, ks0, start, i, generate, parse, dumps, pages);
    assert db.products[..i + 1] == db.products[..i] + [db.products[i]];
    ChangedTotalStep(start, db.products, i);
  }

  /** main: the products and the key state become those of EnrichRun, so every product not
      yet well filled is enriched in list order and the others are skipped; returns the total
      number of fields set. */
  method EnrichAll(ring: KeyRing, db: Store,
                   generate: Call -> Result<string, string>, parse: string -> Result<Reply, string>,
                   dumps: seq<string> -> string, pages: Lookups)
    returns (totalUpdated: nat)
    requires ring.Ready()
    modifies ring, db
    ensures ring.Ready()
    ensures (db.products, KeyState(ring.currentKeyIndex, ring.modelKey.value)) ==
            EnrichRun(ring.keys, KeyState(old(ring.currentKeyIndex), old(ring.modelKey).value),
                      old(db.products), generate, parse, dumps, pages)
    ensures |db.products| == |old(db.products)|
    ensures forall k :: 0 <= k < |db.products| ==> Kept(old(db.products[k]), db.products[k])
    ensures forall k :: 0 <= k < |db.products| && WellFilled(old(db.products[k])) ==>
      db.products[k] == old(db.products[k])
    ensures totalUpdated == ChangedTotal(old(db.products), db.products)
    ensures db.videos == old(db.videos) && db.reviews == old(db.reviews)
  {
    ghost var start := db.products;
    ghost var ks0 := KeyState(ring.currentKeyIndex, ring.modelKey.value);
    totalUpdated := 0;
    var i := 0;
    while i < |db.products|
      invariant ring.Ready()
      invariant 0 <= i <= |db.products| == |start|
      invariant forall k :: i <= k < |start| ==> db.products[k] == start[k]
      invariant (db.products[..i], KeyState(ring.currentKeyIndex, ring.modelKey.value)) ==
                EnrichRun(ring.keys, ks0, start[..i], generate, parse, dumps, pages)
      invariant totalUpdated == ChangedTotal(start[..i], db.products[..i])
      invariant db.videos == old(db.videos) && db.reviews == old(db.reviews)
    {
      totalUpdated := EnrichNext(ring, db, i, start, ks0, totalUpdated, generate, parse, dumps, pages);
      i := i + 1;
    }
    assert start[..i] == start && db.products[..i] == db.products;
    EnrichRunKeeps(ring.keys, ks0, start, generate, parse, dumps, pages);
  }
}
