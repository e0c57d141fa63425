/** Product-name normalisation and the name-based de-duplication of new products
    (normalize_name and find_matching_product in backend/batch_processor.py).
    Unicode NFKC normalisation and difflib's SequenceMatcher ratio are library code:
    they are parameters here (`nfkc`, `ratio`). */
module NameMatching {
  import opened Wrappers
  import opened Text
  import opened Models

  predicate IsOpen(c: char) { c == '(' || c == '（' }
  predicate IsClose(c: char) { c == ')' || c == '）' }

  /** Some closing bracket occurs in s. */
  predicate HasClose(s: string) {
    s != [] && (IsClose(s[0]) || HasClose(s[1..]))
  }

  /** The text after the first closing bracket of s. */
  function AfterClose(s: string): (r: string)
    requires HasClose(s)
    ensures |r| < |s| && r == s[|s| - |r|..]
  {
    if IsClose(s[0]) then s[1..] else AfterClose(s[1..])
  }

  /** The substitution of `[\(（][^)）]*[\)）]` by "": scanning left to right, an opening
      bracket that has a closing bracket somewhere after it is removed together with
      everything up to and including the first such closing bracket. */
  function StripBrackets(s: string): string
    decreases |s|
  {
    if s == [] then []
    else if IsOpen(s[0]) && HasClose(s[1..]) then StripBrackets(AfterClose(s[1..]))
    else [s[0]] + StripBrackets(s[1..])
  }

  /** No opening bracket in s is followed, anywhere later, by a closing bracket. */
  predicate NoBracketPair(s: string) {
    s == [] || ((IsOpen(s[0]) ==> !HasClose(s[1..])) && NoBracketPair(s[1..]))
  }

  predicate NoOpen(s: string) { forall i :: 0 <= i < |s| ==> !IsOpen(s[i]) }
  predicate NoClose(s: string) { forall i :: 0 <= i < |s| ==> !IsClose(s[i]) }

  lemma {:induction false} HasCloseIff(s: string)
    ensures HasClose(s) <==> !NoClose(s)
  {
    if s != [] {
      HasCloseIff(s[1..]);
      assert forall i :: 1 <= i < |s| ==> s[i] == s[1..][i - 1];
    }
  }

  lemma {:induction false} StripBracketsKeepsCloseFree(s: string)
    requires !HasClose(s)
    ensures !HasClose(StripBrackets(s))
  {
    if s != [] {
      StripBracketsKeepsCloseFree(s[1..]);
    }
  }

  /** After the substitution no bracket pair is left. */
  lemma {:induction false} StripBracketsLeavesNoPair(s: string)
    ensures NoBracketPair(StripBrackets(s))
    decreases |s|
  {
    if s == [] {
    } else if IsOpen(s[0]) && HasClose(s[1..]) {
      StripBracketsLeavesNoPair(AfterClose(s[1..]));
    } else {
      StripBracketsLeavesNoPair(s[1..]);
      if IsOpen(s[0]) {
        StripBracketsKeepsCloseFree(s[1..]);
      }
      assert StripBrackets(s) == [s[0]] + StripBrackets(s[1..]);
      assert StripBrackets(s)[1..] == StripBrackets(s[1..]);
    }
  }

  /** Text without opening brackets is left as it is. */
  lemma {:induction false} StripBracketsNoOpen(s: string)
    requires NoOpen(s)
    ensures StripBrackets(s) == s
  {
    if s != [] {
      StripBracketsNoOpen(s[1..]);
      assert s == [s[0]] + s[1..];
    }
  }

  lemma {:induction false} AfterCloseSkipsContent(b: string, c: char, rest: string)
    requires NoClose(b) && IsClose(c)
    ensures HasClose(b + [c] + rest) && AfterClose(b + [c] + rest) == rest
  {
    if b != [] {
      assert (b + [c] + rest)[1..] == b[1..] + [c] + rest;
      AfterCloseSkipsContent(b[1..], c, rest);
    }
  }

  /** A bracket pair (ASCII or full-width, in either combination) is removed together with
      its content when that content holds no closing bracket; text before it without
      opening brackets is kept. */
  lemma {:induction false} StripBracketsRemovesPair(a: string, o: char, b: string, c: char, rest: string)
    requires NoOpen(a) && IsOpen(o) && NoClose(b) && IsClose(c)
    ensures StripBrackets(a + [o] + b + [c] + rest) == a + StripBrackets(rest)
  {
    var s := a + [o] + b + [c] + rest;
    if a == [] {
      assert s[1..] == b + [c] + rest;
      AfterCloseSkipsContent(b, c, rest);
    } else {
      assert s[1..] == a[1..] + [o] + b + [c] + rest;
      StripBracketsRemovesPair(a[1..], o, b, c, rest);
      assert a == [a[0]] + a[1..];
    }
  }

  lemma {:induction false} RemoveSpacesKeepsCloseFree(s: string)
    requires !HasClose(s)
    ensures !HasClose(RemoveSpaces(s))
  {
    if s != [] {
      RemoveSpacesKeepsCloseFree(s[1..]);
    }
  }

  lemma {:induction false} RemoveSpacesKeepsNoPair(s: string)
    requires NoBracketPair(s)
    ensures NoBracketPair(RemoveSpaces(s))
  {
    if s != [] {
      RemoveSpacesKeepsNoPair(s[1..]);
      if !IsSpace(s[0]) {
        if IsOpen(s[0]) { RemoveSpacesKeepsCloseFree(s[1..]); }
        assert RemoveSpaces(s)[1..] == RemoveSpaces(s[1..]);
      }
    }
  }

  lemma {:induction false} LowerKeepsCloseFree(s: string)
    requires !HasClose(s)
    ensures !HasClose(Lower(s))
  {
    if s != [] {
      LowerKeepsCloseFree(s[1..]);
      assert Lower(s)[1..] == Lower(s[1..]);
    }
  }

  lemma {:induction false} LowerKeepsNoPair(s: string)
    requires NoBracketPair(s)
    ensures NoBracketPair(Lower(s))
  {
    if s != [] {
      LowerKeepsNoPair(s[1..]);
      assert Lower(s)[1..] == Lower(s[1..]);
      if IsOpen(s[0]) { LowerKeepsCloseFree(s[1..]); }
    }
  }

  lemma StripWithoutSpaces(s: string)
    requires NoSpace(s)
    ensures Strip(s) == s
  {
    if s != [] {
      assert !IsSpace(s[0]) && !IsSpace(s[|s| - 1]);
    }
  }

  /** normalize_name: "" for a missing or empty name; otherwise NFKC, bracket pairs
      removed, all whitespace removed, lower-cased. The final strip() of the source is left
      out because nothing is left for it to remove (NormalizeNameShape). */
  function NormalizeName(nfkc: string -> string, name: Option<string>): string {
    if !Truthy(name) then ""
    else Lower(RemoveSpaces(StripBrackets(nfkc(name.value))))
  }

  /** The normal form holds no whitespace, no upper-case letter and no bracket pair, is
      "" for a missing or empty name, and is unchanged by a final strip(). */
  lemma NormalizeNameShape(nfkc: string -> string, name: Option<string>)
    ensures !Truthy(name) ==> NormalizeName(nfkc, name) == ""
    ensures Strip(NormalizeName(nfkc, name)) == NormalizeName(nfkc, name)
    ensures NoSpace(NormalizeName(nfkc, name)) && NoUpper(NormalizeName(nfkc, name))
    ensures NoBracketPair(NormalizeName(nfkc, name))
  {
    if Truthy(name) {
      var a := StripBrackets(nfkc(name.value));
      StripBracketsLeavesNoPair(nfkc(name.value));
      RemoveSpacesKeepsNoPair(a);
      LowerKeepsNoPair(RemoveSpaces(a));
      LowerHasNoUpper(RemoveSpaces(a));
      StripWithoutSpaces(Lower(RemoveSpaces(a)));
    } else {
      StripWithoutSpaces("");
    }
  }

  // ---------------------------------------------------------------- find_matching_product

  /** The similarity score of an existing product against the normalised query: the name
      ratio, plus 0.1 when both brands are given and their normalised ratio exceeds 0.7. */
  function Score(nfkc: string -> string, ratio: (string, string) -> real,
                 query: string, brandName: Option<string>, p: Product): real
  {
    var s := ratio(query, NormalizeName(nfkc, p.name));
    if Truthy(brandName) && Truthy(p.brand)
       && ratio(NormalizeName(nfkc, brandName), NormalizeName(nfkc, p.brand)) > 0.7
    then s + 0.1 else s
  }

  /** The normalised names of the products, in order. */
  function Keys(nfkc: string -> string, ps: seq<Product>): (r: seq<string>)
    ensures |r| == |ps|
    ensures forall j :: 0 <= j < |ps| ==> r[j] == NormalizeName(nfkc, ps[j].name)
  {
    if ps == [] then [] else [NormalizeName(nfkc, ps[0].name)] + Keys(nfkc, ps[1..])
  }

  /** The scores of the products, in order. */
  function Scores(nfkc: string -> string, ratio: (string, string) -> real, query: string,
                  brandName: Option<string>, ps: seq<Product>): (r: seq<real>)
    ensures |r| == |ps|
    ensures forall j :: 0 <= j < |ps| ==> r[j] == Score(nfkc, ratio, query, brandName, ps[j])
  {
    if ps == [] then []
    else [Score(nfkc, ratio, query, brandName, ps[0])] + Scores(nfkc, ratio, query, brandName, ps[1..])
  }

  /** The scan over a list of scores: the index and value of the earliest strictly highest
      score, starting from no match at score 0.0. */
  function BestOf(scores: seq<real>): (r: (Option<nat>, real))
    ensures r.0.Some? ==> r.0.value < |scores|
  {
    if scores == [] then (None, 0.0)
    else
      var (bi, bs) := BestOf(scores[..|scores| - 1]);
      if scores[|scores| - 1] > bs then (Some(|scores| - 1), scores[|scores| - 1]) else (bi, bs)
  }

  lemma BestOfStep(scores: seq<real>, i: nat)
    requires i < |scores|
    ensures BestOf(scores[..i + 1]) ==
      if scores[i] > BestOf(scores[..i]).1 then (Some(i), scores[i]) else BestOf(scores[..i])
  {
    assert scores[..i + 1][..i] == scores[..i];
  }

  /** The scan keeps the earliest highest score; with no positive score it keeps nothing. */
  lemma {:induction false} BestOfIsEarliestMaximum(scores: seq<real>)
    ensures var (bi, bs) := BestOf(scores);
      && bs >= 0.0
      && (forall j :: 0 <= j < |scores| ==> scores[j] <= bs)
      && (bi.None? ==> bs == 0.0)
      && (bi.Some? ==> bi.value < |scores| && scores[bi.value] == bs
                       && forall j :: 0 <= j < bi.value ==> scores[j] < bs)
  {
    if scores != [] {
      BestOfIsEarliestMaximum(scores[..|scores| - 1]);
    }
  }

  /** Index of the first key equal to the query. */
  function FirstExact(keys: seq<string>, query: string): (r: Option<nat>)
    ensures r.Some? ==> r.value < |keys|
  {
    if keys == [] then None
    else if keys[0] == query then Some(0)
    else match FirstExact(keys[1..], query)
      case None => None
      case Some(k) => Some(k + 1)
  }

  lemma {:induction false} FirstExactIsFirst(keys: seq<string>, query: string)
    ensures FirstExact(keys, query).Some? ==>
      var k := FirstExact(keys, query).value;
      k < |keys| && keys[k] == query && forall j :: 0 <= j < k ==> keys[j] != query
    ensures FirstExact(keys, query).None? ==> query !in keys
  {
    if keys != [] {
      FirstExactIsFirst(keys[1..], query);
      assert keys == [keys[0]] + keys[1..];
    }
  }

  /** One round of the scoring loop of find_matching_product. */
  method ScoreExisting(nfkc: string -> string, ratio: (string, string) -> real,
                       normalizedNew: string, normalizedExisting: string,
                       brandName: Option<string>, existing: Product)
    returns (score: real)
    requires normalizedExisting == NormalizeName(nfkc, existing.name)
    ensures score == Score(nfkc, ratio, normalizedNew, brandName, existing)
    ensures score == ratio(normalizedNew, normalizedExisting)
         || score == ratio(normalizedNew, normalizedExisting) + 0.1
  {
    score := ratio(normalizedNew, normalizedExisting);
    if Truthy(brandName) && Truthy(existing.brand) {
      var brandScore := ratio(NormalizeName(nfkc, brandName), NormalizeName(nfkc, existing.brand));
      if brandScore > 0.7 {
        score := score + 0.1;
      }
    }
  }

  lemma {:induction false} FirstExactAt(keys: seq<string>, query: string, i: nat)
    requires i < |keys| && keys[i] == query
    requires forall j :: 0 <= j < i ==> keys[j] != query
    ensures FirstExact(keys, query) == Some(i)
  {
    if i > 0 {
      FirstExactAt(keys[1..], query, i - 1);
    }
  }

  lemma {:induction false} FirstExactAbsent(keys: seq<string>, query: string)
    requires forall j :: 0 <= j < |keys| ==> keys[j] != query
    ensures FirstExact(keys, query) == None
  {
    if keys != [] {
      FirstExactAbsent(keys[1..], query);
    }
  }

  /** What find_matching_product returns: None for an empty normalised query; the first
      product whose normalised name equals the query if there is one; otherwise the
      earliest best-scoring product when its score reaches 0.85, else None. */
  function MatchOf(nfkc: string -> string, ratio: (string, string) -> real,
                   products: seq<Product>, productName: Option<string>,
                   brandName: Option<string>): Option<Product>
  {
    var q := NormalizeName(nfkc, productName);
    if q == "" then None
    else match FirstExact(Keys(nfkc, products), q)
      case Some(k) => Some(products[k])
      case None =>
        var (bi, bs) := BestOf(Scores(nfkc, ratio, q, brandName, products));
        if bs >= 0.85 && bi.Some? then Some(products[bi.value]) else None
  }

  /** An empty normalised query matches nothing. Otherwise, when some product's normalised
      name equals the query, the match is the first such product; when none does, a match
      is the earliest product with the highest score, which reaches 0.85; and no match
      means that no name equals the query and every score stays below 0.85. */
  lemma MatchOfMeaning(nfkc: string -> string, ratio: (string, string) -> real,
                       products: seq<Product>, productName: Option<string>,
                       brandName: Option<string>)
    ensures var q := NormalizeName(nfkc, productName);
      var m := MatchOf(nfkc, ratio, products, productName, brandName);
      && (q == "" ==> m.None?)
      && (q != "" ==>
            forall k :: 0 <= k < |products| && NormalizeName(nfkc, products[k].name) == q
                        && (forall j :: 0 <= j < k ==> NormalizeName(nfkc, products[j].name) != q) ==>
              m == Some(products[k]))
      && (q != "" && m.Some? && (forall j :: 0 <= j < |products| ==> NormalizeName(nfkc, products[j].name) != q) ==>
            exists k :: 0 <= k < |products| && m == Some(products[k])
              && Score(nfkc, ratio, q, brandName, products[k]) >= 0.85
              && (forall j :: 0 <= j < |products| ==>
                    Score(nfkc, ratio, q, brandName, products[j]) <= Score(nfkc, ratio, q, brandName, products[k]))
              && (forall j :: 0 <= j < k ==>
                    Score(nfkc, ratio, q, brandName, products[j]) < Score(nfkc, ratio, q, brandName, products[k])))
      && (q != "" && m.None? ==>
            forall j :: 0 <= j < |products| ==>
              NormalizeName(nfkc, products[j].name) != q && Score(nfkc, ratio, q, brandName, products[j]) < 0.85)
      && (m.Some? ==> m.value in products)
  {
    var q := NormalizeName(nfkc, productName);
    MatchOfMember(nfkc, ratio, products, productName, brandName);
    if q != "" {
      MatchOfExact(nfkc, ratio, products, productName, brandName);
      if forall j :: 0 <= j < |products| ==> NormalizeName(nfkc, products[j].name) != q {
        MatchOfBest(nfkc, ratio, products, productName, brandName);
      }
      MatchOfNone(nfkc, ratio, products, productName, brandName);
    }
  }

  /** A match is one of the products. */
  lemma MatchOfMember(nfkc: string -> string, ratio: (string, string) -> real,
                      products: seq<Product>, productName: Option<string>,
                      brandName: Option<string>)
    ensures var m := MatchOf(nfkc, ratio, products, productName, brandName);
      m.Some? ==> m.value in products
  {
    var q := NormalizeName(nfkc, productName);
    if q != "" {
      var keys := Keys(nfkc, products);
      match FirstExact(keys, q)
      case Some(k) =>
        assert MatchOf(nfkc, ratio, products, productName, brandName) == Some(products[k]);
      case None =>
        var (bi, bs) := BestOf(Scores(nfkc, ratio, q, brandName, products));
        BestOfIsEarliestMaximum(Scores(nfkc, ratio, q, brandName, products));
        if bs >= 0.85 && bi.Some? {
          assert MatchOf(nfkc, ratio, products, productName, brandName) == Some(products[bi.value]);
        }
    }
  }

  /** The exact case of MatchOfMeaning: the first product carrying the query's name. */
  lemma MatchOfExact(nfkc: string -> string, ratio: (string, string) -> real,
                     products: seq<Product>, productName: Option<string>,
                     brandName: Option<string>)
    requires NormalizeName(nfkc, productName) != ""
    ensures var q := NormalizeName(nfkc, productName);
      forall k :: 0 <= k < |products| && NormalizeName(nfkc, products[k].name) == q
                  && (forall j :: 0 <= j < k ==> NormalizeName(nfkc, products[j].name) != q) ==>
        MatchOf(nfkc, ratio, products, productName, brandName) == Some(products[k])
  {
    var q := NormalizeName(nfkc, productName);
    var keys := Keys(nfkc, products);
    forall k | 0 <= k < |products| && NormalizeName(nfkc, products[k].name) == q
               && (forall j :: 0 <= j < k ==> NormalizeName(nfkc, products[j].name) != q)
      ensures MatchOf(nfkc, ratio, products, productName, brandName) == Some(products[k])
    {
      FirstExactAt(keys, q, k);
    }
  }

  /** The fuzzy case of MatchOfMeaning: without an exact name, a match is the earliest
      product with the highest score, and that score reaches 0.85. */
  lemma MatchOfBest(nfkc: string -> string, ratio: (string, string) -> real,
                    products: seq<Product>, productName: Option<string>,
                    brandName: Option<string>)
    requires NormalizeName(nfkc, productName) != ""
    requires forall j :: 0 <= j < |products| ==> NormalizeName(nfkc, products[j].name) != NormalizeName(nfkc, productName)
    ensures var q := NormalizeName(nfkc, productName);
      MatchOf(nfkc, ratio, products, productName, brandName).Some? ==>
        exists k :: 0 <= k < |products| && MatchOf(nfkc, ratio, products, productName, brandName) == Some(products[k])
          && Score(nfkc, ratio, q, brandName, products[k]) >= 0.85
          && (forall j :: 0 <= j < |products| ==>
                Score(nfkc, ratio, q, brandName, products[j]) <= Score(nfkc, ratio, q, brandName, products[k]))
          && (forall j :: 0 <= j < k ==>
                Score(nfkc, ratio, q, brandName, products[j]) < Score(nfkc, ratio, q, brandName, products[k]))
  {
    var q := NormalizeName(nfkc, productName);
    var keys := Keys(nfkc, products);
    var scores := Scores(nfkc, ratio, q, brandName, products);
    FirstExactAbsent(keys, q);
    BestOfIsEarliestMaximum(scores);
    var (bi, bs) := BestOf(scores);
    if bs >= 0.85 && bi.Some? {
      var k := bi.value;
      var best := Score(nfkc, ratio, q, brandName, products[k]);
      assert best == scores[k] == bs;
      forall j | 0 <= j < |products|
        ensures Score(nfkc, ratio, q, brandName, products[j]) <= best
      {
        assert scores[j] == Score(nfkc, ratio, q, brandName, products[j]);
      }
      forall j | 0 <= j < k
        ensures Score(nfkc, ratio, q, brandName, products[j]) < best
      {
        assert scores[j] == Score(nfkc, ratio, q, brandName, products[j]);
      }
      assert MatchOf(nfkc, ratio, products, productName, brandName) == Some(products[k]);
    }
  }

  /** The empty case of MatchOfMeaning: no match means no product carries the query's name
      and every score stays below 0.85. */
  lemma MatchOfNone(nfkc: string -> string, ratio: (string, string) -> real,
                    products: seq<Product>, productName: Option<string>,
                    brandName: Option<string>)
    requires NormalizeName(nfkc, productName) != ""
    ensures var q := NormalizeName(nfkc, productName);
      MatchOf(nfkc, ratio, products, productName, brandName).None? ==>
        forall j :: 0 <= j < |products| ==>
          NormalizeName(nfkc, products[j].name) != q && Score(nfkc, ratio, q, brandName, products[j]) < 0.85
  {
    var q := NormalizeName(nfkc, productName);
    var keys := Keys(nfkc, products);
    var scores := Scores(nfkc, ratio, q, brandName, products);
    FirstExactIsFirst(keys, q);
    BestOfIsEarliestMaximum(scores);
    if MatchOf(nfkc, ratio, products, productName, brandName).None? {
      assert FirstExact(keys, q).None?;
      assert forall j :: 0 <= j < |products| ==> keys[j] != q && scores[j] < 0.85;
    }
  }

  /** find_matching_product, scanning the products once. */
  method FindMatchingProduct(nfkc: string -> string, ratio: (string, string) -> real,
                             products: seq<Product>, productName: Option<string>,
                             brandName: Option<string>)
    returns (m: Option<Product>)
    ensures m == MatchOf(nfkc, ratio, products, productName, brandName)
  {
    var normalizedNew := NormalizeName(nfkc, productName);
    if normalizedNew == "" {
      return None;
    }
    ghost var keys := Keys(nfkc, products);
    ghost var scores := Scores(nfkc, ratio, normalizedNew, brandName, products);
    var bestMatch: Option<nat> := None;
    var bestScore: real := 0.0;
    var i := 0;
    while i < |products|
      invariant 0 <= i <= |products|
      invariant (bestMatch, bestScore) == BestOf(scores[..i])
      invariant forall j :: 0 <= j < i ==> keys[j] != normalizedNew
    {
      var existing := products[i];
      var normalizedExisting := NormalizeName(nfkc, existing.name);
      assert normalizedExisting == keys[i];
      if normalizedNew == normalizedExisting {
        FirstExactAt(keys, normalizedNew, i);
        return Some(existing);
      }
      assert forall j :: 0 <= j < i + 1 ==> keys[j] != normalizedNew;
      var score := ScoreExisting(nfkc, ratio, normalizedNew, normalizedExisting, brandName, existing);
      assert score == scores[i];
      BestOfStep(scores, i);
      if score > bestScore {
        bestScore := score;
        bestMatch := Some(i);
      }
      i := i + 1;
    }
    assert scores[..i] == scores;
    FirstExactAbsent(keys, normalizedNew);
    if bestScore >= 0.85 && bestMatch.Some? {
      return Some(products[bestMatch.value]);
    }
    return None;
  }
}
