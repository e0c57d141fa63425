/** String operations the Python and TypeScript code relies on (str.lower, str.strip,
    `in`, str.count, str.replace, str.split, str.join), written out over seq<char>. */
module Text {
  import opened Wrappers

  /** The characters Python's str.isspace (and the regex class \s) treat as whitespace. */
  predicate IsSpace(c: char) {
    || c == ' ' || ('\t' <= c <= '\r') || ('\U{1C}' <= c <= '\U{1F}')
    || c == '\U{85}' || c == '\U{A0}' || c == '\U{1680}' || ('\U{2000}' <= c <= '\U{200A}')
    || c == '\U{2028}' || c == '\U{2029}' || c == '\U{202F}' || c == '\U{205F}' || c == '\U{3000}'
  }

  predicate IsUpper(c: char) { 'A' <= c <= 'Z' }

  predicate IsDigit(c: char) { '0' <= c <= '9' }

  function DigitValue(c: char): (d: nat)
    requires IsDigit(c)
    ensures d < 10
  {
    c as int - '0' as int
  }

  /** Lower-casing of one character (ASCII letters; every other character is kept). */
  function LowerChar(c: char): (d: char)
    ensures !IsUpper(d)
    ensures IsSpace(d) <==> IsSpace(c)
    ensures IsUpper(c) || d == c
  {
    if IsUpper(c) then (c as int + 32) as char else c
  }

  function Lower(s: string): (r: string)
    ensures |r| == |s|
    ensures forall i :: 0 <= i < |s| ==> r[i] == LowerChar(s[i])
  {
    if s == [] then [] else [LowerChar(s[0])] + Lower(s[1..])
  }

  predicate NoUpper(s: string) { forall i :: 0 <= i < |s| ==> !IsUpper(s[i]) }

  predicate NoSpace(s: string) { forall i :: 0 <= i < |s| ==> !IsSpace(s[i]) }

  lemma LowerHasNoUpper(s: string)
    ensures NoUpper(Lower(s))
    ensures NoSpace(s) ==> NoSpace(Lower(s))
  {
  }

  /** Every whitespace character removed (the regex substitution \s+ -> ""). */
  function RemoveSpaces(s: string): (r: string)
    ensures NoSpace(r)
    ensures |r| <= |s|
  {
    if s == [] then []
    else if IsSpace(s[0]) then RemoveSpaces(s[1..])
    else [s[0]] + RemoveSpaces(s[1..])
  }

  /** Python's str() of a natural number: its decimal digits. */
  function NatToString(n: nat): (r: string)
    ensures r != [] && forall k :: 0 <= k < |r| ==> IsDigit(r[k])
  {
    if n < 10 then [('0' as int + n) as char]
    else NatToString(n / 10) + [('0' as int + n % 10) as char]
  }

  // ---------------------------------------------------------------- substrings

  predicate OccursAt(s: string, p: string, i: nat) {
    i + |p| <= |s| && s[i..i + |p|] == p
  }

  /** Python's `p in s`, as the index of the first occurrence. */
  function IndexOf(s: string, p: string): Option<nat>
    decreases |s|
  {
    if |s| < |p| then None
    else if p <= s then Some(0)
    else match IndexOf(s[1..], p)
      case None => None
      case Some(k) => Some(k + 1)
  }

  predicate Contains(s: string, p: string) { IndexOf(s, p).Some? }

  lemma OccursAtShift(s: string, p: string, j: nat)
    requires |s| > 0
    ensures OccursAt(s, p, j + 1) <==> OccursAt(s[1..], p, j)
  {
    if j + 1 + |p| <= |s| {
      assert s[1..][j..j + |p|] == s[j + 1..j + 1 + |p|];
    }
  }

  /** IndexOf finds the first occurrence, and finds none exactly when there is none. */
  lemma {:induction false} IndexOfFirst(s: string, p: string)
    ensures IndexOf(s, p).Some? ==>
              OccursAt(s, p, IndexOf(s, p).value)
              && forall j :: 0 <= j < IndexOf(s, p).value ==> !OccursAt(s, p, j)
    ensures IndexOf(s, p).None? ==> forall j: nat :: !OccursAt(s, p, j)
    decreases |s|
  {
    if |s| < |p| {
    } else if p <= s {
      assert s[0..|p|] == p;
    } else {
      IndexOfFirst(s[1..], p);
      assert !OccursAt(s, p, 0) by { assert s[0..|p|] == s[..|p|]; }
      forall j: nat ensures OccursAt(s, p, j + 1) <==> OccursAt(s[1..], p, j) {
        OccursAtShift(s, p, j);
      }
      forall j: nat | OccursAt(s, p, j) ensures j > 0 && OccursAt(s[1..], p, j - 1) {
        OccursAtShift(s, p, j - 1);
      }
    }
  }

  lemma ContainsIff(s: string, p: string)
    ensures Contains(s, p) <==> exists i: nat :: OccursAt(s, p, i)
  {
    IndexOfFirst(s, p);
  }

  /** Python's str.count: leftmost, non-overlapping occurrences of the pattern (an empty
      pattern is counted at each of the |s| + 1 positions). */
  function Count(s: string, p: string): nat
    decreases |s|
  {
    if p == [] then |s| + 1
    else if |s| < |p| then 0
    else if p <= s then 1 + Count(s[|p|..], p)
    else Count(s[1..], p)
  }

  lemma MulSucc(c: nat, d: int)
    ensures (1 + c) * d == d + c * d
  {
  }

  lemma MulStep(c: nat, w: nat, n: int)
    requires c * w <= n - w
    ensures (1 + c) * w <= n
  {
    assert (1 + c) * w == w + c * w;
  }

  /** Non-overlapping occurrences of p fit in s side by side. */
  lemma {:induction false} CountFits(s: string, p: string)
    requires p != []
    ensures Count(s, p) * |p| <= |s|
    decreases |s|
  {
    if |s| < |p| {
    } else if p <= s {
      CountFits(s[|p|..], p);
      MulStep(Count(s[|p|..], p), |p|, |s|);
    } else {
      CountFits(s[1..], p);
      assert Count(s, p) == Count(s[1..], p) && |s[1..]| == |s| - 1;
    }
  }

  /** Python's str.replace(p, r): every leftmost, non-overlapping occurrence replaced. */
  function ReplaceAll(s: string, p: string, r: string): string
    requires p != []
    decreases |s|
  {
    if |s| < |p| then s
    else if p <= s then r + ReplaceAll(s[|p|..], p, r)
    else [s[0]] + ReplaceAll(s[1..], p, r)
  }

  /** Replacing changes the length by the replacement's growth once per counted occurrence. */
  lemma {:induction false} ReplaceAllLength(s: string, p: string, r: string)
    requires p != []
    ensures |ReplaceAll(s, p, r)| == |s| + Count(s, p) * (|r| - |p|)
    decreases |s|
  {
    if |s| < |p| {
    } else if p <= s {
      ReplaceAllLength(s[|p|..], p, r);
      MulSucc(Count(s[|p|..], p), |r| - |p|);
      assert |ReplaceAll(s, p, r)| == |r| + |ReplaceAll(s[|p|..], p, r)|;
    } else {
      ReplaceAllLength(s[1..], p, r);
      assert |ReplaceAll(s, p, r)| == 1 + |ReplaceAll(s[1..], p, r)|;
    }
  }

  /** Without an occurrence of p, replacing leaves the text as it is and counts nothing. */
  lemma {:induction false} ReplaceAllAbsent(s: string, p: string, r: string)
    requires p != [] && !Contains(s, p)
    ensures ReplaceAll(s, p, r) == s && Count(s, p) == 0
    decreases |s|
  {
    if |s| < |p| {
    } else {
      assert !(p <= s);
      assert !Contains(s[1..], p);
      ReplaceAllAbsent(s[1..], p, r);
    }
  }

  /** Some occurrence is counted exactly when the pattern occurs. */
  lemma {:induction false} CountPositiveIff(s: string, p: string)
    ensures Count(s, p) > 0 <==> Contains(s, p)
    decreases |s|
  {
    if p == [] {
      assert p <= s;
    } else if |s| < |p| || p <= s {
    } else {
      CountPositiveIff(s[1..], p);
    }
  }

  /** A character that lower-casing neither produces from nor turns into something else. */
  predicate Caseless(c: char) { !IsUpper(c) && !('a' <= c <= 'z') }

  /** Lower-casing leaves a text without Latin letters as it is. */
  lemma LowerCaseless(p: string)
    requires forall k :: 0 <= k < |p| ==> Caseless(p[k])
    ensures Lower(p) == p
  {
    assert forall k :: 0 <= k < |p| ==> Lower(p)[k] == p[k];
  }

  /** Lower-casing the text does not change where a pattern without Latin letters occurs. */
  lemma LowerKeepsCaselessOccurrence(s: string, p: string, i: nat)
    requires forall k :: 0 <= k < |p| ==> Caseless(p[k])
    ensures OccursAt(Lower(s), p, i) <==> OccursAt(s, p, i)
  {
    if i + |p| <= |s| {
      var l := Lower(s);
      if OccursAt(l, p, i) {
        forall k | 0 <= k < |p| ensures s[i + k] == p[k] {
          assert l[i..i + |p|][k] == l[i + k];
        }
        assert s[i..i + |p|] == p;
      }
      if OccursAt(s, p, i) {
        forall k | 0 <= k < |p| ensures l[i + k] == p[k] {
          assert s[i..i + |p|][k] == s[i + k];
        }
        assert l[i..i + |p|] == p;
      }
    }
  }

  lemma LowerKeepsCaselessContains(s: string, p: string)
    requires forall k :: 0 <= k < |p| ==> Caseless(p[k])
    ensures Contains(Lower(s), p) <==> Contains(s, p)
  {
    ContainsIff(Lower(s), p);
    ContainsIff(s, p);
    forall i: nat ensures OccursAt(Lower(s), p, i) <==> OccursAt(s, p, i) {
      LowerKeepsCaselessOccurrence(s, p, i);
    }
  }

  // ---------------------------------------------------------------- split / join / strip

  /** s.split(p)[0]: the text before the first occurrence of p (all of s when there is none). */
  function BeforeFirst(s: string, p: string): (r: string)
    ensures r <= s
  {
    match IndexOf(s, p)
    case None => s
    case Some(i) => IndexOfFirst(s, p); s[..i]
  }

  /** A separator that cannot start where the text starts leaves the first character. */
  lemma BeforeFirstKeepsHead(s: string, p: string)
    requires s != [] && p != [] && s[0] != p[0]
    ensures BeforeFirst(s, p) != [] && BeforeFirst(s, p)[0] == s[0]
  {
    assert !(p <= s);
    match IndexOf(s, p)
    case None =>
    case Some(i) =>
      IndexOfFirst(s, p);
      assert !OccursAt(s, p, 0) by { assert s[0..|p|] == s[..|p|]; }
      assert i > 0;
  }

  /** s.split(p)[1]: the text between the first and the second occurrence of p (or the end). */
  function SecondPiece(s: string, p: string): string
    requires Contains(s, p)
  {
    IndexOfFirst(s, p);
    var i := IndexOf(s, p).value;
    BeforeFirst(s[i + |p|..], p)
  }

  /** sep.join(parts). */
  function Join(sep: string, parts: seq<string>): string {
    if parts == [] then ""
    else if |parts| == 1 then parts[0]
    else parts[0] + sep + Join(sep, parts[1..])
  }

  /** Python's str.strip(): whitespace removed at both ends. */
  function Strip(s: string): (r: string)
    ensures r == [] || (!IsSpace(r[0]) && !IsSpace(r[|r| - 1]))
    decreases |s|
  {
    if s != [] && IsSpace(s[0]) then Strip(s[1..])
    else if s != [] && IsSpace(s[|s| - 1]) then Strip(s[..|s| - 1])
    else s
  }

  /** Python's str.strip(c) for one character c. */
  function StripChar(s: string, c: char): (r: string)
    ensures r == [] || (r[0] != c && r[|r| - 1] != c)
    decreases |s|
  {
    if s != [] && s[0] == c then StripChar(s[1..], c)
    else if s != [] && s[|s| - 1] == c then StripChar(s[..|s| - 1], c)
    else s
  }
}
