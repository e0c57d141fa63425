/** Distinctness, first-occurrence de-duplication (a JavaScript Set, a Python dict's keys,
    SQL DISTINCT) and the ascending sort of strings used by the facet lists. */
module Collections {
  import opened Wrappers

  /** Concatenation regrouped; stated once so that loops appending to a list can cite it. */
  lemma AppendAssoc<T>(a: seq<T>, b: seq<T>, c: seq<T>)
    ensures a + b + c == a + (b + c)
  {
  }

  ghost predicate NoDup<T>(s: seq<T>) {
    forall i, j :: 0 <= i < j < |s| ==> s[i] != s[j]
  }

  /** Index of the first occurrence of x in s. */
  function FirstIndex<T(==)>(s: seq<T>, x: T): (i: nat)
    requires x in s
    ensures i < |s| && s[i] == x && x !in s[..i]
  {
    if s[0] == x then 0 else 1 + FirstIndex(s[1..], x)
  }

  /** The distinct values of s, each where it first occurs. */
  function Dedupe<T(==,!new)>(s: seq<T>): (r: seq<T>)
    ensures NoDup(r)
    ensures forall x :: x in r <==> x in s
    ensures |r| <= |s|
  {
    if s == [] then []
    else
      var r := Dedupe(s[..|s| - 1]);
      assert forall x :: x in s <==> x in s[..|s| - 1] || x == s[|s| - 1];
      if s[|s| - 1] in r then r else r + [s[|s| - 1]]
  }

  lemma FirstIndexOfPrefix<T>(s: seq<T>, x: T, y: T)
    requires s != [] && y in s[..|s| - 1]
    ensures y in s && FirstIndex(s, y) == FirstIndex(s[..|s| - 1], y)
  {
    var t := s[..|s| - 1];
    var i := FirstIndex(t, y);
    var k := FirstIndex(s, y);
    assert s[i] == y;
    assert t[..i] == s[..i];
  }

  /** De-duplication keeps the values in the order of their first occurrence. */
  lemma {:induction false} DedupeKeepsFirstOrder<T(!new)>(s: seq<T>)
    ensures forall i, j :: 0 <= i < j < |Dedupe(s)| ==>
              FirstIndex(s, Dedupe(s)[i]) < FirstIndex(s, Dedupe(s)[j])
  {
    if s != [] {
      var t := s[..|s| - 1];
      var last := s[|s| - 1];
      DedupeKeepsFirstOrder(t);
      var r := Dedupe(t);
      forall y | y in r ensures FirstIndex(s, y) == FirstIndex(t, y) && FirstIndex(s, y) < |t| {
        FirstIndexOfPrefix(s, last, y);
      }
      if last !in r {
        assert last !in t;
        assert FirstIndex(s, last) == |t|;
      }
    }
  }

  /** The set values that are present and non-empty (JavaScript's filter(Boolean),
      Python's `if c`), in their order; what it keeps is stated by the lemmas below. */
  function PresentValues(s: seq<Option<string>>): (r: seq<string>)
    ensures |r| <= |s|
  {
    if s == [] then []
    else
      var rest := PresentValues(s[1..]);
      if Truthy(s[0]) then [s[0].value] + rest else rest
  }

  /** One step of PresentValues: a present head, then the values of the tail. */
  lemma PresentValuesCons(s: seq<Option<string>>)
    requires s != []
    ensures PresentValues(s) == if Truthy(s[0]) then [s[0].value] + PresentValues(s[1..]) else PresentValues(s[1..])
  {
  }

  /** Every kept value is non-empty and present in the list. */
  lemma {:induction false} PresentValuesAt(s: seq<Option<string>>, k: nat)
    requires k < |PresentValues(s)|
    ensures PresentValues(s)[k] != "" && Some(PresentValues(s)[k]) in s
    decreases |s|
  {
    PresentValuesCons(s);
    if !Truthy(s[0]) || k > 0 {
      var k' := if Truthy(s[0]) then k - 1 else k;
      PresentValuesAt(s[1..], k');
      assert PresentValues(s)[k] == PresentValues(s[1..])[k'];
      assert Some(PresentValues(s)[k]) in s[1..];
    }
  }

  /** A value is kept exactly when it is non-empty and present. */
  lemma {:induction false} PresentValuesMembers(s: seq<Option<string>>)
    ensures forall v :: v in PresentValues(s) <==> v != "" && Some(v) in s
    decreases |s|
  {
    if s != [] {
      PresentValuesCons(s);
      PresentValuesMembers(s[1..]);
      assert forall v :: Some(v) in s <==> Some(v) == s[0] || Some(v) in s[1..];
    }
  }

  /** Without duplicates in the list, none among the kept values. */
  lemma {:induction false} PresentValuesNoDup(s: seq<Option<string>>)
    requires NoDup(s)
    ensures NoDup(PresentValues(s))
    decreases |s|
  {
    if s != [] {
      NoDupTail(s);
      PresentValuesCons(s);
      PresentValuesNoDup(s[1..]);
      PresentValuesMembers(s[1..]);
      var rest := PresentValues(s[1..]);
      if Truthy(s[0]) {
        assert s[0] !in s[1..];
        assert s[0].value !in rest;
        var r := [s[0].value] + rest;
        forall i, j | 0 <= i < j < |r| ensures r[i] != r[j] {
          assert r[j] == rest[j - 1];
          if i > 0 {
            assert r[i] == rest[i - 1];
          }
        }
      }
    }
  }

  /** Without duplicates, a value of the tail is first found one place later in the whole. */
  lemma FirstIndexOfTail<T>(s: seq<T>, x: T)
    requires NoDup(s) && s != [] && x in s[1..]
    ensures x in s && FirstIndex(s, x) == 1 + FirstIndex(s[1..], x)
  {
    var k := FirstIndex(s[1..], x);
    assert s[k + 1] == x;
  }

  /** Filtering keeps the values in their order of occurrence. */
  lemma PresentValuesKeepOrder(s: seq<Option<string>>)
    requires NoDup(s)
    ensures forall i :: 0 <= i < |PresentValues(s)| ==> Some(PresentValues(s)[i]) in s
    ensures forall i, j :: 0 <= i < j < |PresentValues(s)| ==>
              FirstIndex(s, Some(PresentValues(s)[i])) < FirstIndex(s, Some(PresentValues(s)[j]))
  {
    forall i | 0 <= i < |PresentValues(s)| ensures Some(PresentValues(s)[i]) in s {
      PresentValuesAt(s, i);
    }
    forall i, j | 0 <= i < j < |PresentValues(s)|
      ensures FirstIndex(s, Some(PresentValues(s)[i])) < FirstIndex(s, Some(PresentValues(s)[j]))
    {
      PresentValuesPairInOrder(s, i, j);
    }
  }

  /** One pair of PresentValuesKeepOrder, by induction on the list. */
  lemma {:induction false} PresentValuesPairInOrder(s: seq<Option<string>>, i: nat, j: nat)
    requires NoDup(s) && i < j < |PresentValues(s)|
    ensures Some(PresentValues(s)[i]) in s && Some(PresentValues(s)[j]) in s
    ensures FirstIndex(s, Some(PresentValues(s)[i])) < FirstIndex(s, Some(PresentValues(s)[j]))
    decreases |s|
  {
    var t := s[1..];
    NoDupTail(s);
    if Truthy(s[0]) && i == 0 {
      PairWithHead(s, j);
    } else {
      var d := if Truthy(s[0]) then 1 else 0;
      PresentValuesIndex(s, i);
      PresentValuesIndex(s, j);
      PresentValuesPairInOrder(t, i - d, j - d);
      ShiftOrder(s, PresentValues(t)[i - d], PresentValues(t)[j - d]);
    }
  }

  /** A present head is the first value kept, and found before every later one. */
  lemma PairWithHead(s: seq<Option<string>>, j: nat)
    requires NoDup(s) && s != [] && Truthy(s[0]) && 0 < j < |PresentValues(s)|
    ensures Some(PresentValues(s)[0]) in s && Some(PresentValues(s)[j]) in s
    ensures FirstIndex(s, Some(PresentValues(s)[0])) < FirstIndex(s, Some(PresentValues(s)[j]))
  {
    var rest := PresentValues(s[1..]);
    PresentValuesCons(s);
    var b := rest[j - 1];
    assert PresentValues(s)[j] == b;
    PresentValuesAt(s[1..], j - 1);
    HeadFirst(s, b);
  }

  /** A value kept after a present head sits one place further on than in the tail's list. */
  lemma PresentValuesIndex(s: seq<Option<string>>, k: nat)
    requires s != [] && k < |PresentValues(s)| && (Truthy(s[0]) ==> k > 0)
    ensures var d := if Truthy(s[0]) then 1 else 0;
      k - d < |PresentValues(s[1..])| && PresentValues(s)[k] == PresentValues(s[1..])[k - d]
  {
    PresentValuesCons(s);
  }

  lemma NoDupTail<T>(s: seq<T>)
    requires NoDup(s) && s != []
    ensures NoDup(s[1..])
  {
    var t := s[1..];
    forall a, b | 0 <= a < b < |t| ensures t[a] != t[b] {
      assert t[a] == s[a + 1] && t[b] == s[b + 1];
    }
  }

  /** The head is found before any value of the tail. */
  lemma HeadFirst(s: seq<Option<string>>, b: string)
    requires NoDup(s) && s != [] && Some(b) in s[1..]
    ensures Some(b) in s && FirstIndex(s, Some(b)) > 0
  {
    FirstIndexOfTail(s, Some(b));
  }

  /** Two values of the tail keep their order in the whole. */
  lemma ShiftOrder(s: seq<Option<string>>, a: string, b: string)
    requires NoDup(s) && s != [] && Some(a) in s[1..] && Some(b) in s[1..]
    requires FirstIndex(s[1..], Some(a)) < FirstIndex(s[1..], Some(b))
    ensures Some(a) in s && Some(b) in s && FirstIndex(s, Some(a)) < FirstIndex(s, Some(b))
  {
    FirstIndexOfTail(s, Some(a));
    FirstIndexOfTail(s, Some(b));
  }

  // ---------------------------------------------------------------- string order

  /** Lexicographic order of strings by character code (Python's and SQL's `<=` on text). */
  predicate StrLe(a: string, b: string)
    decreases |a|
  {
    a == [] || (b != [] && (a[0] < b[0] || (a[0] == b[0] && StrLe(a[1..], b[1..]))))
  }

  lemma {:induction false} StrLeTotal(a: string, b: string)
    ensures StrLe(a, b) || StrLe(b, a)
    decreases |a|
  {
    if a != [] && b != [] && a[0] == b[0] {
      StrLeTotal(a[1..], b[1..]);
    }
  }

  lemma {:induction false} StrLeTrans(a: string, b: string, c: string)
    requires StrLe(a, b) && StrLe(b, c)
    ensures StrLe(a, c)
    decreases |a|
  {
    if a != [] && a[0] == b[0] && b[0] == c[0] {
      StrLeTrans(a[1..], b[1..], c[1..]);
    }
  }

  lemma {:induction false} StrLeAntisymmetric(a: string, b: string)
    requires StrLe(a, b) && StrLe(b, a)
    ensures a == b
    decreases |a|
  {
    if a != [] {
      StrLeAntisymmetric(a[1..], b[1..]);
      assert a == [a[0]] + a[1..] && b == [b[0]] + b[1..];
    }
  }

  predicate Sorted(s: seq<string>) {
    forall i, j :: 0 <= i < j < |s| ==> StrLe(s[i], s[j])
  }

  function Insert(x: string, s: seq<string>): (r: seq<string>)
    ensures multiset(r) == multiset(s) + multiset{x}
  {
    if s == [] || StrLe(x, s[0]) then [x] + s
    else
      assert s == [s[0]] + s[1..];
      [s[0]] + Insert(x, s[1..])
  }

  lemma InsertElements(x: string, s: seq<string>, y: string)
    ensures y in Insert(x, s) <==> y == x || y in s
  {
    assert y in Insert(x, s) <==> y in multiset(Insert(x, s));
    assert y in s <==> y in multiset(s);
  }

  lemma {:induction false} InsertSorted(x: string, s: seq<string>)
    requires Sorted(s)
    ensures Sorted(Insert(x, s))
  {
    if s == [] || StrLe(x, s[0]) {
      forall j | 0 < j < |s| ensures StrLe(x, s[j]) {
        StrLeTrans(x, s[0], s[j]);
      }
    } else {
      StrLeTotal(x, s[0]);
      InsertSorted(x, s[1..]);
      var t := Insert(x, s[1..]);
      forall k | 0 <= k < |t| ensures StrLe(s[0], t[k]) {
        InsertElements(x, s[1..], t[k]);
      }
    }
  }

  lemma {:induction false} InsertNoDup(x: string, s: seq<string>)
    requires NoDup(s) && x !in s
    ensures NoDup(Insert(x, s))
  {
    if s != [] && !StrLe(x, s[0]) {
      InsertNoDup(x, s[1..]);
      InsertElements(x, s[1..], s[0]);
    }
  }

  /** Python's sorted() and JavaScript's sort() on strings, by insertion. */
  function SortStrings(s: seq<string>): (r: seq<string>)
    ensures multiset(r) == multiset(s)
  {
    if s == [] then []
    else
      assert s == [s[0]] + s[1..];
      Insert(s[0], SortStrings(s[1..]))
  }

  /** The sort orders its input, and keeps distinct values distinct. */
  lemma {:induction false} SortStringsSorted(s: seq<string>)
    ensures Sorted(SortStrings(s))
    ensures NoDup(s) ==> NoDup(SortStrings(s))
  {
    if s != [] {
      SortStringsSorted(s[1..]);
      var t := SortStrings(s[1..]);
      InsertSorted(s[0], t);
      if NoDup(s) {
        assert s[0] !in t by {
          assert s[0] !in s[1..];
          assert s[0] !in multiset(s[1..]);
        }
        InsertNoDup(s[0], t);
      }
    }
  }

  lemma SortedInSameValues(s: seq<string>)
    ensures forall x :: x in SortStrings(s) <==> x in s
  {
    var r := SortStrings(s);
    forall x ensures x in r <==> x in s {
      assert x in r <==> x in multiset(r);
      assert x in s <==> x in multiset(s);
    }
  }

  // ---------------------------------------------------------------- facet lists

  /** The distinct present values of a column (a Set or DISTINCT, then filter(Boolean)),
      in the order they first occur. */
  function Facet(values: seq<Option<string>>): (r: seq<string>)
    ensures NoDup(r)
    ensures forall v :: v in r <==> v != "" && Some(v) in values
  {
    PresentValuesMembers(Dedupe(values));
    PresentValuesNoDup(Dedupe(values));
    PresentValues(Dedupe(values))
  }

  lemma FirstIndexNoDup<T>(s: seq<T>, k: nat)
    requires NoDup(s) && k < |s|
    ensures FirstIndex(s, s[k]) == k
  {
  }

  /** The facet lists its values in the order of their first occurrence in the column. */
  lemma {:induction false} FacetKeepsFirstOrder(values: seq<Option<string>>)
    ensures forall i, j :: 0 <= i < j < |Facet(values)| ==>
              FirstIndex(values, Some(Facet(values)[i])) < FirstIndex(values, Some(Facet(values)[j]))
  {
    var d := Dedupe(values);
    var r := Facet(values);
    PresentValuesKeepOrder(d);
    DedupeKeepsFirstOrder(values);
    forall i, j | 0 <= i < j < |r|
      ensures FirstIndex(values, Some(r[i])) < FirstIndex(values, Some(r[j]))
    {
      var a := FirstIndex(d, Some(r[i]));
      var b := FirstIndex(d, Some(r[j]));
      assert d[a] == Some(r[i]) && d[b] == Some(r[j]);
    }
  }

  /** The facet, sorted (sorted() after DISTINCT, or sort() after a Set). */
  function SortedFacet(values: seq<Option<string>>): (r: seq<string>)
    ensures Sorted(r) && NoDup(r)
    ensures forall v :: v in r <==> v != "" && Some(v) in values
  {
    var f := Facet(values);
    SortStringsSorted(f);
    SortedInSameValues(f);
    SortStrings(f)
  }

  lemma HeadIn<T>(s: seq<T>)
    requires s != []
    ensures s[0] in s
  {
  }

  /** Two sorted lists without repeats that hold the same values are the same list. */
  lemma {:induction false} SortedUnique(a: seq<string>, b: seq<string>)
    requires Sorted(a) && Sorted(b) && NoDup(a) && NoDup(b)
    requires forall x :: x in a <==> x in b
    ensures a == b
  {
    if a == [] {
      if b != [] { HeadIn(b); assert false; }
    } else {
      assert a[0] in b;
      assert b != [];
      assert b[0] in a;
      var k :| 0 <= k < |a| && a[k] == b[0];
      var m :| 0 <= m < |b| && b[m] == a[0];
      if k > 0 && m > 0 {
        assert StrLe(a[0], a[k]) && StrLe(b[0], b[m]);
        StrLeAntisymmetric(a[0], b[0]);
      }
      assert a[0] == b[0];
      forall x ensures x in a[1..] <==> x in b[1..] {
        if x in a[1..] {
          var i :| 0 <= i < |a[1..]| && a[1..][i] == x;
          assert a[i + 1] == x && x != a[0];
          assert x in a && x in b;
          var j :| 0 <= j < |b| && b[j] == x;
          assert b[1..][j - 1] == x;
        }
        if x in b[1..] {
          var i :| 0 <= i < |b[1..]| && b[1..][i] == x;
          assert b[i + 1] == x && x != b[0];
          assert x in b && x in a;
          var j :| 0 <= j < |a| && a[j] == x;
          assert a[1..][j - 1] == x;
        }
      }
      SortedUnique(a[1..], b[1..]);
      assert a == [a[0]] + a[1..] && b == [b[0]] + b[1..];
    }
  }

  /** The sorted facet depends only on which values the column holds, not on their order
      or repetition (so neither the order DISTINCT returns rows in nor the sort used matters). */
  lemma SortedFacetOrderFree(values: seq<Option<string>>, others: seq<Option<string>>)
    requires forall x :: x in values <==> x in others
    ensures SortedFacet(values) == SortedFacet(others)
  {
    SortedUnique(SortedFacet(values), SortedFacet(others));
  }
}
