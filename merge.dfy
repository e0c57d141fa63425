/** The one-shot de-duplication of the catalog (merge_products in backend/merge_products.py):
    products are grouped by their normalised name, the oldest product of each group with
    more than one member is kept, the reviews of the others are moved to it, and the others
    are deleted. */
module Merge {
  import opened Wrappers
  import opened Models
  import opened NameMatching

  // ---------------------------------------------------------------- deleting and repointing rows

  /** products.id is the primary key. */
  predicate UniqueIds(ps: seq<Product>) {
    forall i, j :: 0 <= i < |ps| && 0 <= j < |ps| && ps[i].id == ps[j].id ==> i == j
  }

  lemma SameIdSameProduct(ps: seq<Product>, p: Product, q: Product)
    requires UniqueIds(ps) && p in ps && q in ps && p.id == q.id
    ensures p == q
  {
    var i :| 0 <= i < |ps| && ps[i] == p;
    var j :| 0 <= j < |ps| && ps[j] == q;
  }

  /** The products whose ids are not in `gone`, in order. */
  function Without(ps: seq<Product>, gone: set<string>): (r: seq<Product>)
    ensures |r| <= |ps|
  {
    if ps == [] then []
    else Without(ps[..|ps| - 1], gone) + (if ps[|ps| - 1].id in gone then [] else [ps[|ps| - 1]])
  }

  /** What is left is exactly the products whose ids are not in `gone`. */
  lemma {:induction false} WithoutMembers(ps: seq<Product>, gone: set<string>)
    ensures forall p :: p in Without(ps, gone) <==> p in ps && p.id !in gone
  {
    if ps != [] {
      WithoutMembers(ps[..|ps| - 1], gone);
      assert ps == ps[..|ps| - 1] + [ps[|ps| - 1]];
    }
  }

  lemma {:induction false} WithoutTwice(ps: seq<Product>, a: set<string>, b: set<string>)
    ensures Without(Without(ps, a), b) == Without(ps, a + b)
  {
    if ps != [] {
      var init := ps[..|ps| - 1];
      var last := ps[|ps| - 1];
      WithoutTwice(init, a, b);
      var w := Without(init, a);
      assert Without(ps, a + b) == Without(init, a + b) + (if last.id in a + b then [] else [last]);
      if last.id in a {
        assert Without(ps, a) == w;
      } else {
        var wl := w + [last];
        assert Without(ps, a) == wl;
        assert wl[..|wl| - 1] == w && wl[|wl| - 1] == last;
        assert Without(wl, b) == Without(w, b) + (if last.id in b then [] else [last]);
      }
    }
  }

  lemma {:induction false} WithoutNothing(ps: seq<Product>)
    ensures Without(ps, {}) == ps
  {
    if ps != [] {
      WithoutNothing(ps[..|ps| - 1]);
      assert ps[..|ps| - 1] + [ps[|ps| - 1]] == ps;
    }
  }

  /** Deleting ids that occur once each removes exactly that many products. */
  lemma {:induction false} WithoutCount(ps: seq<Product>, gone: set<string>)
    requires UniqueIds(ps)
    requires forall x :: x in gone ==> exists p :: p in ps && p.id == x
    ensures |Without(ps, gone)| == |ps| - |gone|
  {
    if ps != [] {
      var init := ps[..|ps| - 1];
      var last := ps[|ps| - 1];
      var rest := gone - {last.id};
      forall x | x in rest ensures exists p :: p in init && p.id == x {
        var p :| p in ps && p.id == x;
        var i :| 0 <= i < |ps| && ps[i] == p;
        assert i != |ps| - 1;
        assert init[i] == p;
      }
      assert forall p :: p in init ==> p.id != last.id by {
        forall p | p in init ensures p.id != last.id {
          var i :| 0 <= i < |init| && init[i] == p;
          assert ps[i] == p;
        }
      }
      assert UniqueIds(init);
      WithoutCount(init, rest);
      WithoutSame(init, gone, rest);
    }
  }

  /** Ids that no product has do not matter. */
  lemma {:induction false} WithoutSame(ps: seq<Product>, a: set<string>, b: set<string>)
    requires forall p :: p in ps ==> (p.id in a <==> p.id in b)
    ensures Without(ps, a) == Without(ps, b)
  {
    if ps != [] {
      WithoutSame(ps[..|ps| - 1], a, b);
    }
  }

  /** Where the reviews of a moved id go: one fixed product, or the product kept by the group
      of the id's product (see KeptId). */
  datatype Redirect = To(target: string) | ToKept(norm: Option<string> -> string, catalog: seq<Product>)

  function Dest(to: Redirect, id: string): string {
    match to
    case To(c) => c
    case ToKept(norm, ps) => KeptId(norm, ps, KeyOfId(norm, ps, id))
  }

  /** A review pointing at an id in `moved` now points at `to` of that id; others stay. */
  function Repoint(rs: seq<Review>, moved: set<string>, to: Redirect): (r: seq<Review>)
    ensures |r| == |rs|
  {
    if rs == [] then []
    else Repoint(rs[..|rs| - 1], moved, to)
         + [var r := rs[|rs| - 1]; if r.productId in moved then r.(productId := Dest(to, r.productId)) else r]
  }

  /** Review by review: each one is repointed on its own. */
  lemma {:induction false} RepointAt(rs: seq<Review>, moved: set<string>, to: Redirect)
    ensures forall k :: 0 <= k < |rs| ==>
      Repoint(rs, moved, to)[k] == if rs[k].productId in moved then rs[k].(productId := Dest(to, rs[k].productId)) else rs[k]
  {
    if rs != [] {
      RepointAt(rs[..|rs| - 1], moved, to);
    }
  }

  /** The target that sends every id to `c`. */
  function Const(c: string): Redirect {
    To(c)
  }

  /** Moving a further set of ids after a first one is one move of both, when the ids moved
      first never land on an id moved later. */
  lemma RepointTwice(rs: seq<Review>, a: set<string>, b: set<string>, to: Redirect,
                     c: string)
    requires a !! b
    requires forall x :: x in a ==> Dest(to, x) !in b
    requires forall x :: x in b ==> Dest(to, x) == c
    ensures Repoint(Repoint(rs, a, to), b, Const(c)) == Repoint(rs, a + b, to)
  {
    RepointAt(rs, a, to);
    RepointAt(Repoint(rs, a, to), b, Const(c));
    RepointAt(rs, a + b, to);
  }

  // ---------------------------------------------------------------- one group

  /** The position the stable sort by created_at puts first: the earliest-created member,
      the first of them on a tie. */
  function Earliest(group: seq<Product>): (c: nat)
    requires group != []
    ensures c < |group|
    ensures forall j :: 0 <= j < |group| ==> group[c].createdAt <= group[j].createdAt
    ensures forall j :: 0 <= j < c ==> group[c].createdAt < group[j].createdAt
  {
    if |group| == 1 then 0
    else
      var c := Earliest(group[..|group| - 1]);
      if group[|group| - 1].createdAt < group[c].createdAt then |group| - 1 else c
  }

  /** The ids of the members other than the one at position c, among the first n. */
  function Others(group: seq<Product>, c: nat, n: nat): set<string>
    requires n <= |group|
  {
    set j | 0 <= j < n && j != c :: group[j].id
  }

  lemma OthersStep(group: seq<Product>, c: nat, n: nat)
    requires UniqueIds(group) && c < |group| && n < |group| && n != c
    ensures Others(group, c, n + 1) == Others(group, c, n) + {group[n].id}
    ensures group[n].id !in Others(group, c, n) && group[n].id != group[c].id
    ensures |Others(group, c, n + 1)| == |Others(group, c, n)| + 1
  {
    assert group[n].id !in Others(group, c, n) by {
      forall j | 0 <= j < n && j != c ensures group[j].id != group[n].id {
        assert j < n;
      }
    }
    if n < c { assert group[n].id != group[c].id; }
    if c < n { assert group[c].id != group[n].id; }
  }

  lemma OthersSkip(group: seq<Product>, c: nat)
    requires c < |group|
    ensures Others(group, c, c + 1) == Others(group, c, c)
  {
  }

  /** Handling the member at position n after those before it is handling the first n + 1. */
  lemma GroupStep(ps: seq<Product>, rs: seq<Review>, group: seq<Product>, c: nat, n: nat)
    requires UniqueIds(group) && c < |group| && n < |group| && n != c
    ensures Without(Without(ps, Others(group, c, n)), {group[n].id}) == Without(ps, Others(group, c, n + 1))
    ensures Repoint(Repoint(rs, Others(group, c, n), Const(group[c].id)), {group[n].id}, Const(group[c].id))
         == Repoint(rs, Others(group, c, n + 1), Const(group[c].id))
  {
    OthersStep(group, c, n);
    WithoutTwice(ps, Others(group, c, n), {group[n].id});
    RepointTwice(rs, Others(group, c, n), {group[n].id}, Const(group[c].id), group[c].id);
  }

  /** Before the first member nothing is handled. */
  lemma GroupStart(ps: seq<Product>, rs: seq<Review>, group: seq<Product>, c: nat)
    requires c < |group|
    ensures Others(group, c, 0) == {}
    ensures DeletedFrom(ps, ps, Others(group, c, 0))
    ensures Moved(rs, rs, Others(group, c, 0), Const(group[c].id))
  {
    WithoutNothing(ps);
    RepointAt(rs, {}, Const(group[c].id));
  }

  /** With distinct ids, the first n members other than the one at c have n or n - 1 ids. */
  lemma {:induction false} OthersCount(group: seq<Product>, c: nat, n: nat)
    requires UniqueIds(group) && c < |group| && n <= |group|
    ensures |Others(group, c, n)| == if n > c then n - 1 else n
  {
    if n == 0 {
      assert Others(group, c, 0) == {};
    } else {
      OthersCount(group, c, n - 1);
      if n - 1 == c {
        OthersSkip(group, c);
      } else {
        OthersStep(group, c, n - 1);
      }
    }
  }

  /** The review-moving loop for one duplicate: every review of `from` now belongs to `to`. */
  method MoveReviews(db: Store, from: string, to: string)
    modifies db
    ensures db.reviews == Repoint(old(db.reviews), {from}, Const(to))
    ensures db.products == old(db.products) && db.videos == old(db.videos)
  {
    ghost var rs := db.reviews;
    var k := 0;
    while k < |db.reviews|
      invariant 0 <= k <= |db.reviews| == |rs|
      invariant db.products == old(db.products) && db.videos == old(db.videos)
      invariant forall j :: 0 <= j < |rs| ==>
        db.reviews[j] == if j < k && rs[j].productId == from then rs[j].(productId := to) else rs[j]
    {
      if db.reviews[k].productId == from {
        db.reviews := db.reviews[k := db.reviews[k].(productId := to)];
      }
      k := k + 1;
    }
    RepointAt(rs, {from}, Const(to));
    assert db.reviews == Repoint(rs, {from}, Const(to));
  }

  /** `now` is `before` without the products of `ids`. */
  ghost predicate DeletedFrom(now: seq<Product>, before: seq<Product>, ids: set<string>) {
    now == Without(before, ids)
  }

  /** `now` is `before` with the reviews of `ids` moved by `to`. */
  ghost predicate Moved(now: seq<Review>, before: seq<Review>, ids: set<string>, to: Redirect) {
    now == Repoint(before, ids, to)
  }

  /** One member other than the kept one: its reviews move to the kept member, then it is
      deleted. */
  method MergeMember(db: Store, ghost ps: seq<Product>, ghost rs: seq<Review>, group: seq<Product>,
                     c: nat, j: nat)
    requires UniqueIds(group) && c < |group| && j < |group| && j != c
    requires DeletedFrom(db.products, ps, Others(group, c, j))
    requires Moved(db.reviews, rs, Others(group, c, j), Const(group[c].id))
    modifies db
    ensures DeletedFrom(db.products, ps, Others(group, c, j + 1))
    ensures Moved(db.reviews, rs, Others(group, c, j + 1), Const(group[c].id))
    ensures db.videos == old(db.videos)
  {
    var dup := group[j];
    GroupStep(ps, rs, group, c, j);
    MoveReviews(db, dup.id, group[c].id);
    db.products := Without(db.products, {dup.id});
  }

  /** One duplicate group: the earliest member is kept, each other member's reviews move to
      it and the member is deleted. */
  method MergeGroup(db: Store, group: seq<Product>) returns (removed: nat)
    requires |group| > 1 && UniqueIds(group)
    modifies db
    ensures var c := Earliest(group);
      && DeletedFrom(db.products, old(db.products), Others(group, c, |group|))
      && Moved(db.reviews, old(db.reviews), Others(group, c, |group|), Const(group[c].id))
      && removed == |Others(group, c, |group|)| == |group| - 1
    ensures db.videos == old(db.videos)
  {
    var c := Earliest(group);
    var canonical := group[c];
    ghost var ps, rs := db.products, db.reviews;
    GroupStart(ps, rs, group, c);
    removed := 0;
    for j := 0 to |group|
      invariant Moved(db.reviews, rs, Others(group, c, j), Const(canonical.id))
      invariant DeletedFrom(db.products, ps, Others(group, c, j))
      invariant removed == if j > c then j - 1 else j
      invariant db.videos == old(db.videos)
    {
      if j == c {
        OthersSkip(group, c);
        continue;
      }
      MergeMember(db, ps, rs, group, c, j);
      removed := removed + 1;
    }
    OthersCount(group, c, |group|);
  }

  // ---------------------------------------------------------------- the groups of the catalog

  /** normalize_name as a function value: the groups are built with it. */
  function Normalizer(nfkc: string -> string): Option<string> -> string {
    name => NormalizeName(nfkc, name)
  }

  /** The grouping key: the product's name under `norm`, which is Normalizer(nfkc) here. */
  function Key(norm: Option<string> -> string, p: Product): string {
    norm(p.name)
  }

  /** The products with key k, in catalog order. */
  function Group(norm: Option<string> -> string, ps: seq<Product>, k: string): seq<Product> {
    if ps == [] then []
    else Group(norm, ps[..|ps| - 1], k) + (if Key(norm, ps[|ps| - 1]) == k then [ps[|ps| - 1]] else [])
  }

  /** The groups dictionary as the first loop builds it, one product at a time. */
  function GroupsOf(norm: Option<string> -> string, ps: seq<Product>): map<string, seq<Product>> {
    if ps == [] then map[]
    else
      var m := GroupsOf(norm, ps[..|ps| - 1]);
      var k := Key(norm, ps[|ps| - 1]);
      m[k := (if k in m then m[k] else []) + [ps[|ps| - 1]]]
  }

  /** A group holds exactly the products with its key, without repeating an id. */
  lemma {:induction false} GroupMembers(norm: Option<string> -> string, ps: seq<Product>, k: string)
    ensures forall p :: p in Group(norm, ps, k) <==> p in ps && Key(norm, p) == k
    ensures UniqueIds(ps) ==> UniqueIds(Group(norm, ps, k))
  {
    if ps != [] {
      var init, last := ps[..|ps| - 1], ps[|ps| - 1];
      GroupMembers(norm, init, k);
      assert ps == init + [last];
      if UniqueIds(ps) {
        assert UniqueIds(init) by {
          forall i, j | 0 <= i < |init| && 0 <= j < |init| && init[i].id == init[j].id ensures i == j {
            assert ps[i] == init[i] && ps[j] == init[j];
          }
        }
        var g := Group(norm, init, k);
        forall q | q in g ensures q.id != last.id {
          var i :| 0 <= i < |init| && init[i] == q;
          assert ps[i] == q;
        }
      }
    }
  }

  lemma GroupUnique(norm: Option<string> -> string, ps: seq<Product>, k: string)
    requires UniqueIds(ps)
    ensures UniqueIds(Group(norm, ps, k))
  {
    GroupMembers(norm, ps, k);
  }

  /** The dictionary has an entry exactly for the keys that occur, and it is their group. */
  lemma {:induction false} GroupsOfGroups(norm: Option<string> -> string, ps: seq<Product>)
    ensures forall k :: k in GroupsOf(norm, ps) <==> Group(norm, ps, k) != []
    ensures forall k :: k in GroupsOf(norm, ps) ==> GroupsOf(norm, ps)[k] == Group(norm, ps, k)
  {
    if ps != [] {
      GroupsOfGroups(norm, ps[..|ps| - 1]);
    }
  }

  /** The keys whose group has more than one product. */
  function DupKeys(norm: Option<string> -> string, ps: seq<Product>): set<string> {
    set p | p in ps && |Group(norm, ps, Key(norm, p))| > 1 :: Key(norm, p)
  }

  /** p is the product its group keeps: the first of the earliest created. */
  predicate Kept(norm: Option<string> -> string, ps: seq<Product>, p: Product) {
    var g := Group(norm, ps, Key(norm, p));
    g != [] && g[Earliest(g)] == p
  }

  /** The id of the product the group of k keeps ("" when no product has key k). */
  function KeptId(norm: Option<string> -> string, ps: seq<Product>, k: string): string {
    var g := Group(norm, ps, k);
    if g == [] then "" else g[Earliest(g)].id
  }

  /** The key of the product with this id (the last one, "" when there is none). */
  function KeyOfId(norm: Option<string> -> string, ps: seq<Product>, id: string): string {
    if ps == [] then ""
    else if ps[|ps| - 1].id == id then Key(norm, ps[|ps| - 1])
    else KeyOfId(norm, ps[..|ps| - 1], id)
  }

  /** Where the reviews of a deleted product go: the product its group keeps. */
  function Target(norm: Option<string> -> string, ps: seq<Product>): Redirect {
    ToKept(norm, ps)
  }

  /** The ids of the products of the groups of `keys` that their group does not keep. */
  function Extras(norm: Option<string> -> string, ps: seq<Product>, keys: set<string>): set<string> {
    set p | p in ps && Key(norm, p) in keys && !Kept(norm, ps, p) :: p.id
  }

  lemma {:induction false} KeyOfIdIsKey(norm: Option<string> -> string, ps: seq<Product>, p: Product)
    requires UniqueIds(ps) && p in ps
    ensures KeyOfId(norm, ps, p.id) == Key(norm, p)
  {
    var init, last := ps[..|ps| - 1], ps[|ps| - 1];
    if last != p {
      var i :| 0 <= i < |ps| && ps[i] == p;
      assert i != |ps| - 1;
      assert init[i] == p;
      assert UniqueIds(init) by {
        forall i, j | 0 <= i < |init| && 0 <= j < |init| && init[i].id == init[j].id ensures i == j {
          assert ps[i] == init[i] && ps[j] == init[j];
        }
      }
      KeyOfIdIsKey(norm, init, p);
    }
  }

  /** The members of one group other than the kept one are that group's extras. */
  lemma OthersAreExtras(norm: Option<string> -> string, ps: seq<Product>, k: string)
    requires UniqueIds(ps) && Group(norm, ps, k) != []
    ensures var g := Group(norm, ps, k);
      Others(g, Earliest(g), |g|) == Extras(norm, ps, {k})
  {
    var g := Group(norm, ps, k);
    var c := Earliest(g);
    GroupMembers(norm, ps, k);
    forall x | x in Others(g, c, |g|) ensures x in Extras(norm, ps, {k}) {
      var j :| 0 <= j < |g| && j != c && g[j].id == x;
      assert g[j] != g[c];
      assert g[j] in ps;
    }
    forall x | x in Extras(norm, ps, {k}) ensures x in Others(g, c, |g|) {
      var p :| p in ps && Key(norm, p) == k && !Kept(norm, ps, p) && p.id == x;
      var j :| 0 <= j < |g| && g[j] == p;
      assert j != c;
    }
  }

  /** The extras of a set of keys and of one more key are apart, and together they are the
      extras of both. */
  lemma ExtrasSplit(norm: Option<string> -> string, ps: seq<Product>, done: set<string>, k: string)
    requires UniqueIds(ps) && k !in done
    ensures Extras(norm, ps, done + {k}) == Extras(norm, ps, done) + Extras(norm, ps, {k})
    ensures Extras(norm, ps, done) !! Extras(norm, ps, {k})
  {
    forall x | x in Extras(norm, ps, done) ensures x !in Extras(norm, ps, {k}) {
      var p :| p in ps && Key(norm, p) in done && !Kept(norm, ps, p) && p.id == x;
      forall q | q in ps && q.id == x ensures Key(norm, q) != k {
        SameIdSameProduct(ps, p, q);
      }
    }
  }

  /** Reviews moved for the groups done never land on an extra of the next group. */
  lemma TargetAvoids(norm: Option<string> -> string, ps: seq<Product>, done: set<string>, k: string)
    requires UniqueIds(ps) && k !in done
    ensures forall x :: x in Extras(norm, ps, done) ==> Dest(Target(norm, ps), x) !in Extras(norm, ps, {k})
  {
    forall x | x in Extras(norm, ps, done) ensures Dest(Target(norm, ps), x) !in Extras(norm, ps, {k}) {
      var p :| p in ps && Key(norm, p) in done && !Kept(norm, ps, p) && p.id == x;
      TargetOfExtra(norm, ps, p);
    }
  }

  /** The reviews of an extra go to the product its group keeps, which is not an extra of
      any other key. */
  lemma TargetOfExtra(norm: Option<string> -> string, ps: seq<Product>, p: Product)
    requires UniqueIds(ps) && p in ps
    ensures Dest(Target(norm, ps), p.id) == KeptId(norm, ps, Key(norm, p))
    ensures forall k :: k != Key(norm, p) ==> Dest(Target(norm, ps), p.id) !in Extras(norm, ps, {k})
  {
    KeyOfIdIsKey(norm, ps, p);
    var kp := Key(norm, p);
    GroupMembers(norm, ps, kp);
    var gp := Group(norm, ps, kp);
    var kept := gp[Earliest(gp)];
    assert kept in gp;
    forall q | q in ps && q.id == kept.id ensures Key(norm, q) == kp {
      SameIdSameProduct(ps, kept, q);
    }
  }

  /** The reviews of the extras of one group go to the product that group keeps. */
  lemma TargetOfGroup(norm: Option<string> -> string, ps: seq<Product>, k: string)
    requires UniqueIds(ps)
    ensures forall x :: x in Extras(norm, ps, {k}) ==> Dest(Target(norm, ps), x) == KeptId(norm, ps, k)
  {
    forall x | x in Extras(norm, ps, {k}) ensures Dest(Target(norm, ps), x) == KeptId(norm, ps, k) {
      var p :| p in ps && Key(norm, p) == k && !Kept(norm, ps, p) && p.id == x;
      KeyOfIdIsKey(norm, ps, p);
    }
  }

  /** Merging one more duplicate group extends the deletions and moves made so far by that
      group's extras. */
  lemma MainStep(norm: Option<string> -> string, ps: seq<Product>, rs: seq<Review>, done: set<string>, k: string)
    requires UniqueIds(ps) && k !in done && |Group(norm, ps, k)| > 1
    ensures var g := Group(norm, ps, k); var o := Others(g, Earliest(g), |g|);
      && Without(Without(ps, Extras(norm, ps, done)), o) == Without(ps, Extras(norm, ps, done + {k}))
      && Repoint(Repoint(rs, Extras(norm, ps, done), Target(norm, ps)), o, Const(g[Earliest(g)].id))
         == Repoint(rs, Extras(norm, ps, done + {k}), Target(norm, ps))
      && |Extras(norm, ps, done + {k})| == |Extras(norm, ps, done)| + |g| - 1
  {
    var g := Group(norm, ps, k);
    var c := Earliest(g);
    GroupMembers(norm, ps, k);
    OthersAreExtras(norm, ps, k);
    OthersCount(g, c, |g|);
    ExtrasSplit(norm, ps, done, k);
    TargetAvoids(norm, ps, done, k);
    TargetOfGroup(norm, ps, k);
    WithoutTwice(ps, Extras(norm, ps, done), Extras(norm, ps, {k}));
    RepointTwice(rs, Extras(norm, ps, done), Extras(norm, ps, {k}), Target(norm, ps), g[c].id);
  }

  /** The state after merging one more group, from the state before it and what MergeGroup
      did. */
  lemma StateStep(norm: Option<string> -> string, ps: seq<Product>, rs: seq<Review>, done: set<string>, k: string,
                  products: seq<Product>, reviews: seq<Review>, products': seq<Product>, reviews': seq<Review>)
    requires UniqueIds(ps) && k !in done && |Group(norm, ps, k)| > 1
    requires DeletedFrom(products, ps, Extras(norm, ps, done))
    requires Moved(reviews, rs, Extras(norm, ps, done), Target(norm, ps))
    requires var g := Group(norm, ps, k); var o := Others(g, Earliest(g), |g|);
      DeletedFrom(products', products, o) && Moved(reviews', reviews, o, Const(g[Earliest(g)].id))
    ensures DeletedFrom(products', ps, Extras(norm, ps, done + {k}))
    ensures Moved(reviews', rs, Extras(norm, ps, done + {k}), Target(norm, ps))
    ensures |Extras(norm, ps, done + {k})| == |Extras(norm, ps, done)| + |Group(norm, ps, k)| - 1
  {
    MainStep(norm, ps, rs, done, k);
  }

  /** The duplicate keys are those whose group has more than one product. */
  lemma DupKeysAre(norm: Option<string> -> string, ps: seq<Product>)
    ensures forall k :: k in DupKeys(norm, ps) <==> |Group(norm, ps, k)| > 1
  {
    forall k | |Group(norm, ps, k)| > 1 ensures k in DupKeys(norm, ps) {
      GroupMembers(norm, ps, k);
      assert Group(norm, ps, k)[0] in ps;
    }
  }

  /** Before any group, nothing is deleted or moved. */
  lemma MainStart(norm: Option<string> -> string, ps: seq<Product>, rs: seq<Review>)
    ensures MergedSoFar(norm, ps, rs, {}, {}, ps, rs)
  {
    WithoutNothing(ps);
    RepointAt(rs, {}, Target(norm, ps));
  }

  /** The first loop of merge_products: each product appended to the list of its normalised
      name. */
  method GroupByName(norm: Option<string> -> string, all: seq<Product>) returns (groups: map<string, seq<Product>>)
    ensures groups == GroupsOf(norm, all)
  {
    groups := map[];
    for i := 0 to |all|
      invariant groups == GroupsOf(norm, all[..i])
    {
      assert all[..i + 1][..i] == all[..i];
      var normalized := norm(all[i].name);
      groups := groups[normalized := (if normalized in groups then groups[normalized] else []) + [all[i]]];
    }
    assert all[..|all|] == all;
  }

  /** merge_products' report: how many products were deleted and how many are left. */
  datatype Report = Report(merged: nat, remaining: nat)

  /** The dictionary of duplicate groups holds exactly the duplicate keys, each with its group. */
  lemma DuplicatesAre(norm: Option<string> -> string, all: seq<Product>, duplicates: map<string, seq<Product>>)
    requires duplicates == map k | k in GroupsOf(norm, all) && |GroupsOf(norm, all)[k]| > 1 :: GroupsOf(norm, all)[k]
    ensures duplicates.Keys == DupKeys(norm, all)
    ensures forall k :: k in duplicates ==> duplicates[k] == Group(norm, all, k) && |duplicates[k]| > 1
  {
    GroupsOfGroups(norm, all);
    DupKeysAre(norm, all);
  }

  /** The catalog after merging the groups of `done`, seen against the catalog before. */
  ghost predicate MergedSoFar(norm: Option<string> -> string, all: seq<Product>, rs: seq<Review>, done: set<string>,
                              extras: set<string>, products: seq<Product>, reviews: seq<Review>)
  {
    && extras == Extras(norm, all, done)
    && DeletedFrom(products, all, extras)
    && Moved(reviews, rs, extras, Target(norm, all))
  }

  /** Where the second loop stands: the groups of `duplicates` not in `todo` are merged,
      `extras` are their extras, and `merged` counts them. */
  ghost predicate Progress(norm: Option<string> -> string, all: seq<Product>, rs: seq<Review>,
                           duplicates: map<string, seq<Product>>, todo: set<string>, extras: set<string>,
                           merged: nat, products: seq<Product>, reviews: seq<Review>)
  {
    && UniqueIds(all)
    && (forall k :: k in duplicates ==> duplicates[k] == Group(norm, all, k) && |duplicates[k]| > 1)
    && todo <= duplicates.Keys
    && MergedSoFar(norm, all, rs, duplicates.Keys - todo, extras, products, reviews)
    && merged == |extras|
  }

  /** One more duplicate group merged, seen against the catalog before the first one. */
  method MergeNext(db: Store, norm: Option<string> -> string, duplicates: map<string, seq<Product>>, k: string,
                   ghost all: seq<Product>, ghost rs: seq<Review>, ghost todo: set<string>,
                   ghost extras: set<string>, ghost merged: nat)
    returns (removed: nat, ghost extras': set<string>)
    requires k in todo && Progress(norm, all, rs, duplicates, todo, extras, merged, db.products, db.reviews)
    modifies db
    ensures Progress(norm, all, rs, duplicates, todo - {k}, extras', merged + removed, db.products, db.reviews)
    ensures db.videos == old(db.videos)
  {
    ghost var done := duplicates.Keys - todo;
    assert done + {k} == duplicates.Keys - (todo - {k});
    GroupUnique(norm, all, k);
    ghost var products, reviews := db.products, db.reviews;
    removed := MergeGroup(db, duplicates[k]);
    StateStep(norm, all, rs, done, k, products, reviews, db.products, db.reviews);
    extras' := Extras(norm, all, done + {k});
  }

  /** The second loop of merge_products: every duplicate group merged in turn. */
  method MergeGroups(db: Store, norm: Option<string> -> string, duplicates: map<string, seq<Product>>)
    returns (merged: nat)
    requires UniqueIds(db.products)
    requires forall k :: k in duplicates ==> duplicates[k] == Group(norm, db.products, k) && |duplicates[k]| > 1
    modifies db
    ensures var extras := Extras(norm, old(db.products), duplicates.Keys);
      MergedSoFar(norm, old(db.products), old(db.reviews), duplicates.Keys, extras, db.products, db.reviews)
      && merged == |extras|
    ensures db.videos == old(db.videos)
  {
    ghost var all, rs := db.products, db.reviews;
    MainStart(norm, all, rs);
    assert duplicates.Keys - duplicates.Keys == {};
    merged := 0;
    var todo := duplicates.Keys;
    ghost var extras: set<string> := {};
    while todo != {}
      invariant Progress(norm, all, rs, duplicates, todo, extras, merged, db.products, db.reviews)
      invariant db.videos == old(db.videos)
      decreases todo
    {
      var k :| k in todo;
      var removed;
      removed, extras := MergeNext(db, norm, duplicates, k, all, rs, todo, extras, merged);
      merged, todo := merged + removed, todo - {k};
    }
    assert duplicates.Keys - todo == duplicates.Keys;
  }

  /** merge_products: nothing happens when no two products share a normalised name;
      otherwise every duplicate group is merged into the product it keeps. The groups are
      taken in any order: the outcome does not depend on it. */
  method MergeProducts(db: Store, nfkc: string -> string) returns (report: Option<Report>)
    requires UniqueIds(db.products)
    modifies db
    ensures var norm := Normalizer(nfkc); var ps := old(db.products); var extras := Extras(norm, ps, DupKeys(norm, ps));
      && (report.None? <==> DupKeys(norm, ps) == {})
      && DeletedFrom(db.products, ps, extras)
      && Moved(db.reviews, old(db.reviews), extras, Target(norm, ps))
      && (report.Some? ==> report.value.merged == |extras| && report.value.remaining == |db.products|
                           && report.value.merged + report.value.remaining == |ps|)
    ensures report.None? ==> db.products == old(db.products) && db.reviews == old(db.reviews)
    ensures db.videos == old(db.videos)
  {
    var norm := Normalizer(nfkc);
    var all := db.products;
    var groups := GroupByName(norm, all);
    var duplicates := map k | k in groups && |groups[k]| > 1 :: groups[k];
    DuplicatesAre(norm, all, duplicates);
    if |duplicates| == 0 {
      MainStart(norm, all, db.reviews);
      return None;
    }
    var merged := MergeGroups(db, norm, duplicates);
    WithoutCount(all, Extras(norm, all, duplicates.Keys));
    return Some(Report(merged, |all| - merged));
  }

  // ---------------------------------------------------------------- what the merge leaves

  /** The products merge_products leaves: those that no duplicate group deletes. */
  function Survivors(norm: Option<string> -> string, ps: seq<Product>): seq<Product> {
    Without(ps, Extras(norm, ps, DupKeys(norm, ps)))
  }

  /** A group of one keeps its only member. */
  lemma SingleKept(norm: Option<string> -> string, ps: seq<Product>, p: Product)
    requires UniqueIds(ps) && p in ps && |Group(norm, ps, Key(norm, p))| <= 1
    ensures Kept(norm, ps, p)
  {
    GroupMembers(norm, ps, Key(norm, p));
    var g := Group(norm, ps, Key(norm, p));
    assert p in g;
    assert g == [p];
  }

  /** The products left are exactly those their group keeps, unchanged. */
  lemma SurvivorsAreKept(norm: Option<string> -> string, ps: seq<Product>)
    requires UniqueIds(ps)
    ensures forall p :: p in Survivors(norm, ps) <==> p in ps && Kept(norm, ps, p)
  {
    var extras := Extras(norm, ps, DupKeys(norm, ps));
    WithoutMembers(ps, extras);
    DupKeysAre(norm, ps);
    forall p | p in ps ensures p.id in extras <==> !Kept(norm, ps, p) {
      if !Kept(norm, ps, p) {
        if |Group(norm, ps, Key(norm, p))| <= 1 {
          SingleKept(norm, ps, p);
        }
      }
      forall q | q in ps && q.id == p.id ensures q == p {
        SameIdSameProduct(ps, p, q);
      }
    }
  }

  /** After the merge no two products share a normalised name. In particular, at most one
      product without a name is left, since every such product has the key "". */
  lemma {:induction false} OnePerName(norm: Option<string> -> string, ps: seq<Product>)
    requires UniqueIds(ps)
    ensures var left := Survivors(norm, ps);
      forall i, j :: 0 <= i < |left| && 0 <= j < |left| && Key(norm, left[i]) == Key(norm, left[j]) ==> i == j
  {
    var left := Survivors(norm, ps);
    SurvivorsAreKept(norm, ps);
    WithoutUnique(ps, Extras(norm, ps, DupKeys(norm, ps)));
    forall i, j | 0 <= i < |left| && 0 <= j < |left| && Key(norm, left[i]) == Key(norm, left[j]) ensures i == j {
      assert left[i] in left && left[j] in left;
      assert left[i] == left[j];
    }
  }

  /** Deleting rows keeps the ids apart. */
  lemma {:induction false} WithoutUnique(ps: seq<Product>, gone: set<string>)
    requires UniqueIds(ps)
    ensures UniqueIds(Without(ps, gone))
  {
    if ps != [] {
      var init, last := ps[..|ps| - 1], ps[|ps| - 1];
      assert UniqueIds(init) by {
        forall i, j | 0 <= i < |init| && 0 <= j < |init| && init[i].id == init[j].id ensures i == j {
          assert ps[i] == init[i] && ps[j] == init[j];
        }
      }
      WithoutUnique(init, gone);
      WithoutMembers(init, gone);
      var w := Without(init, gone);
      forall q | q in w ensures q.id != last.id {
        var i :| 0 <= i < |init| && init[i] == q;
        assert ps[i] == q;
      }
    }
  }

  /** Every name of the catalog is still there after the merge, carried by its earliest
      created product: the first of them in catalog order. */
  lemma EveryNameKept(norm: Option<string> -> string, ps: seq<Product>, p: Product)
    requires UniqueIds(ps) && p in ps
    ensures exists q :: (q in Survivors(norm, ps) && Key(norm, q) == Key(norm, p)
      && forall r :: r in ps && Key(norm, r) == Key(norm, p) ==> q.createdAt <= r.createdAt)
  {
    var k := Key(norm, p);
    GroupMembers(norm, ps, k);
    var g := Group(norm, ps, k);
    var q := g[Earliest(g)];
    assert q in g;
    SurvivorsAreKept(norm, ps);
    assert Kept(norm, ps, q);
    forall r | r in ps && Key(norm, r) == k ensures q.createdAt <= r.createdAt {
      var j :| 0 <= j < |g| && g[j] == r;
    }
  }

  /** No review is lost and none is left pointing at a deleted product: a review of a
      product of the catalog points afterwards at a product that is left, the one its
      product's group keeps; a review of a product that is left does not move. */
  lemma ReviewsFollow(norm: Option<string> -> string, ps: seq<Product>, rs: seq<Review>, k: nat)
    requires UniqueIds(ps) && k < |rs|
    ensures var extras := Extras(norm, ps, DupKeys(norm, ps)); var after := Repoint(rs, extras, Target(norm, ps));
      && |after| == |rs|
      && ((exists p :: p in ps && p.id == rs[k].productId) ==>
            exists q :: q in Survivors(norm, ps) && q.id == after[k].productId)
      && ((exists p :: p in Survivors(norm, ps) && p.id == rs[k].productId) ==> after[k] == rs[k])
      && after[k].(productId := rs[k].productId) == rs[k]
  {
    var extras := Extras(norm, ps, DupKeys(norm, ps));
    RepointAt(rs, extras, Target(norm, ps));
    SurvivorsAreKept(norm, ps);
    WithoutMembers(ps, extras);
    if p :| p in ps && p.id == rs[k].productId {
      if p.id in extras {
        TargetOfExtra(norm, ps, p);
        GroupMembers(norm, ps, Key(norm, p));
        var g := Group(norm, ps, Key(norm, p));
        var q := g[Earliest(g)];
        assert q in g;
        assert Kept(norm, ps, q);
      }
    }
  }

  /** With no two products sharing a name, nothing is deleted and no review moves. */
  lemma NoDuplicatesNoChange(norm: Option<string> -> string, ps: seq<Product>, rs: seq<Review>)
    requires forall i, j :: 0 <= i < |ps| && 0 <= j < |ps| && Key(norm, ps[i]) == Key(norm, ps[j]) ==> i == j
    ensures DupKeys(norm, ps) == {}
    ensures Survivors(norm, ps) == ps && Repoint(rs, Extras(norm, ps, DupKeys(norm, ps)), Target(norm, ps)) == rs
  {
    DupKeysAre(norm, ps);
    forall k ensures |Group(norm, ps, k)| <= 1 {
      GroupOfDistinct(norm, ps, k);
    }
    MainStart(norm, ps, rs);
  }

  lemma {:induction false} GroupEmpty(norm: Option<string> -> string, ps: seq<Product>, k: string)
    requires forall i :: 0 <= i < |ps| ==> Key(norm, ps[i]) != k
    ensures Group(norm, ps, k) == []
  {
    if ps != [] {
      GroupEmpty(norm, ps[..|ps| - 1], k);
    }
  }

  /** When no two products share a key, every group has at most one member. */
  lemma {:induction false} GroupOfDistinct(norm: Option<string> -> string, ps: seq<Product>, k: string)
    requires forall i, j :: 0 <= i < |ps| && 0 <= j < |ps| && Key(norm, ps[i]) == Key(norm, ps[j]) ==> i == j
    ensures |Group(norm, ps, k)| <= 1
  {
    if ps != [] {
      var init, last := ps[..|ps| - 1], ps[|ps| - 1];
      assert forall i, j :: 0 <= i < |init| && 0 <= j < |init| && Key(norm, init[i]) == Key(norm, init[j]) ==> i == j by {
        forall i, j | 0 <= i < |init| && 0 <= j < |init| && Key(norm, init[i]) == Key(norm, init[j]) ensures i == j {
          assert ps[i] == init[i] && ps[j] == init[j];
        }
      }
      GroupOfDistinct(norm, init, k);
      if Key(norm, last) == k {
        assert forall i :: 0 <= i < |init| ==> Key(norm, init[i]) != k by {
          forall i | 0 <= i < |init| ensures Key(norm, init[i]) != k {
            assert ps[i] == init[i];
          }
        }
        GroupEmpty(norm, init, k);
      }
    }
  }
}
