/** The one-off repair of garbled product names (backend/fix_data.py): each product's name
    is checked against a fixed list of garbled fragments, the first fragment found is
    replaced everywhere in the name by its intended text, and a product whose name changed
    loses its image so that the enrichment fetches a new one. */
module NameRepair {
  import opened Wrappers
  import opened Text
  import opened Models

  /** The fragments and their replacements, in the order the elif chain tests them. */
  const Rules: seq<(string, string)> := [
    ("Wf[V", "Wデーション"),
    ("XV[v", "スリムシャープ"),
    ("ACCi[", "アイライナー"),
    ("N[[N", "クリーム"),
    ("p[^Cv", "パールタイプ"),
    ("THE ACp", "THE アイパレ"),
    ("W f[CA", "W デューイアップ"),
    ("vACpbg", "アイパレット")
  ]

  /** The first rule, from the k-th on, whose fragment occurs in the name. */
  function FirstRule(name: string, k: nat): (r: Option<nat>)
    ensures r.Some? ==> k <= r.value < |Rules| && Contains(name, Rules[r.value].0)
    decreases |Rules| - k
  {
    if k >= |Rules| then None
    else if Contains(name, Rules[k].0) then Some(k)
    else FirstRule(name, k + 1)
  }

  /** The rule chosen is the first whose fragment occurs, and none is chosen only when no
      fragment occurs. */
  lemma {:induction false} FirstRuleIsFirst(name: string, k: nat)
    ensures FirstRule(name, k).Some? ==>
      forall j :: k <= j < FirstRule(name, k).value ==> !Contains(name, Rules[j].0)
    ensures FirstRule(name, k).None? ==> forall j :: k <= j < |Rules| ==> !Contains(name, Rules[j].0)
    decreases |Rules| - k
  {
    if k < |Rules| && !Contains(name, Rules[k].0) {
      FirstRuleIsFirst(name, k + 1);
    }
  }

  /** The repaired name: the first occurring fragment replaced at each occurrence. */
  function FixName(name: string): string {
    match FirstRule(name, 0)
    case None => name
    case Some(k) => ReplaceAll(name, Rules[k].0, Rules[k].1)
  }

  /** One product: a changed name is stored and the image cleared; otherwise it stays as it is. */
  function FixProduct(p: Product): Product
    requires p.name.Some?
  {
    var fixed := FixName(p.name.value);
    if fixed != p.name.value then p.(name := Some(fixed), imageUrl := None) else p
  }

  /** All products fixed, or none: a product without a name makes the fragment test fail,
      and the failure rolls the whole session back. */
  function FixAll(ps: seq<Product>): (r: seq<Product>)
    ensures |r| == |ps|
  {
    if exists i :: 0 <= i < |ps| && ps[i].name.None? then ps
    else seq(|ps|, i requires 0 <= i < |ps| => FixProduct(ps[i]))
  }

  // ---------------------------------------------------------------- the script

  /** fix_product_names: the loop over the products, changing each in place; the rollback
      restores the rows read at the start. */
  method FixProductNames(db: Store)
    modifies db
    ensures db.products == FixAll(old(db.products))
    ensures db.videos == old(db.videos) && db.reviews == old(db.reviews)
  {
    var original := db.products;
    for i := 0 to |original|
      invariant |db.products| == |original|
      invariant forall k :: 0 <= k < i ==> original[k].name.Some? && db.products[k] == FixProduct(original[k])
      invariant db.products[i..] == original[i..]
      invariant db.videos == old(db.videos) && db.reviews == old(db.reviews)
    {
      var p := db.products[i];
      assert p == original[i] by { assert db.products[i..][0] == original[i..][0]; }
      if p.name.None? {
        db.products := original;
        return;
      }
      var name := p.name.value;
      var newName := FixName(name);
      if name != newName {
        p := p.(name := Some(newName), imageUrl := None);
      }
      ghost var before := db.products;
      db.products := db.products[i := p];
      assert db.products[i + 1..] == before[i + 1..];
      assert before[i + 1..] == before[i..][1..];
    }
    assert forall k :: 0 <= k < |original| ==> original[k].name.Some?;
  }

  // ---------------------------------------------------------------- properties

  /** The replacement differs from the fragment somewhere both are defined. */
  predicate Differs(p: string, r: string) {
    exists k :: 0 <= k < |p| && k < |r| && p[k] != r[k]
  }

  lemma RulesDiffer(k: nat)
    requires k < |Rules|
    ensures Rules[k].0 != [] && Differs(Rules[k].0, Rules[k].1)
  {
    var (p, r) := Rules[k];
    if k == 0 || k == 5 || k == 6 {
      var j := if k == 0 then 1 else if k == 5 then 4 else 2;
      assert p[j] != r[j];
    } else {
      assert p[0] != r[0];
    }
  }

  /** Replacing a fragment that occurs by a text that differs from it changes the string. */
  lemma {:induction false} ReplaceAllChanges(s: string, p: string, r: string)
    requires p != [] && Contains(s, p) && Differs(p, r)
    ensures ReplaceAll(s, p, r) != s
    decreases |s|
  {
    var k :| 0 <= k < |p| && k < |r| && p[k] != r[k];
    if p <= s {
      var out := ReplaceAll(s, p, r);
      assert out == r + ReplaceAll(s[|p|..], p, r);
      assert out[k] == r[k] && s[k] == p[k];
    } else {
      assert Contains(s[1..], p);
      ReplaceAllChanges(s[1..], p, r);
      var out := ReplaceAll(s, p, r);
      assert out == [s[0]] + ReplaceAll(s[1..], p, r);
      assert out[1..] == ReplaceAll(s[1..], p, r);
    }
  }

  /** A name changes exactly when one of the fragments occurs in it; then the first such
      fragment, and only it, is replaced: every counted occurrence grows or shrinks the name
      by the difference in length. */
  lemma FixNameSpec(name: string)
    ensures FixName(name) != name <==> exists k :: 0 <= k < |Rules| && Contains(name, Rules[k].0)
    ensures FirstRule(name, 0).Some? ==>
      var k := FirstRule(name, 0).value;
      && (forall j :: 0 <= j < k ==> !Contains(name, Rules[j].0))
      && FixName(name) == ReplaceAll(name, Rules[k].0, Rules[k].1)
      && |FixName(name)| == |name| + Count(name, Rules[k].0) * (|Rules[k].1| - |Rules[k].0|)
  {
    FirstRuleIsFirst(name, 0);
    match FirstRule(name, 0)
    case None =>
    case Some(k) =>
      RulesDiffer(k);
      ReplaceAllChanges(name, Rules[k].0, Rules[k].1);
      ReplaceAllLength(name, Rules[k].0, Rules[k].1);
  }

  /** A product whose name holds a fragment gets the repaired name and loses its image; any
      other product is left exactly as it was. */
  lemma FixProductSpec(p: Product)
    requires p.name.Some?
    ensures (exists k :: 0 <= k < |Rules| && Contains(p.name.value, Rules[k].0)) ==>
      FixProduct(p) == p.(name := Some(FixName(p.name.value)), imageUrl := None)
    ensures (forall k :: 0 <= k < |Rules| ==> !Contains(p.name.value, Rules[k].0)) ==> FixProduct(p) == p
  {
    FixNameSpec(p.name.value);
  }
}
