/** The string operations the app relies on: `toLowerCase` (ASCII letters only), `trim`,
    `includes`, `startsWith`, and the order `Array.prototype.sort` uses when no comparator is given
    (UTF-16 code units compared one by one; here, `char` values). */
module Strings {
  import opened Seqs

  function LowerChar(c: char): (r: char)
    ensures 'A' <= c <= 'Z' ==> r as int == c as int + 32
    ensures !('A' <= c <= 'Z') ==> r == c
  {
    if 'A' <= c <= 'Z' then (c as int + 32) as char else c
  }

  /** `s.toLowerCase()`, for ASCII upper-case letters. */
  function ToLower(s: string): (r: string)
    ensures |r| == |s|
    ensures forall i :: 0 <= i < |s| ==> r[i] == LowerChar(s[i])
  {
    if s == [] then [] else [LowerChar(s[0])] + ToLower(s[1..])
  }

  /** A string without ASCII capitals is its own lower case. */
  lemma ToLowerKeepsLower(s: string)
    requires forall i :: 0 <= i < |s| ==> !('A' <= s[i] <= 'Z')
    ensures ToLower(s) == s
  {
    var r := ToLower(s);
    assert |r| == |s|;
    forall i | 0 <= i < |s| ensures r[i] == s[i] {
      assert r[i] == LowerChar(s[i]);
    }
  }

  /** The characters `String.prototype.trim` removes: white space and line terminators. */
  predicate IsJsWhitespace(c: char) {
    c == '\t' || c == '\n' || c == '\U{000B}' || c == '\U{000C}' || c == '\r' || c == ' '
    || c == '\U{00A0}' || c == '\U{1680}' || ('\U{2000}' <= c <= '\U{200A}')
    || c == '\U{2028}' || c == '\U{2029}' || c == '\U{202F}' || c == '\U{205F}'
    || c == '\U{3000}' || c == '\U{FEFF}'
  }

  function TrimStart(s: string): (r: string)
    ensures |r| <= |s| && r == s[|s| - |r|..]
    ensures r != [] ==> !IsJsWhitespace(r[0])
    ensures forall i :: 0 <= i < |s| - |r| ==> IsJsWhitespace(s[i])
  {
    if s != [] && IsJsWhitespace(s[0]) then TrimStart(s[1..]) else s
  }

  function TrimEnd(s: string): (r: string)
    ensures |r| <= |s| && r == s[..|r|]
    ensures r != [] ==> !IsJsWhitespace(r[|r| - 1])
    ensures forall i :: |r| <= i < |s| ==> IsJsWhitespace(s[i])
  {
    if s != [] && IsJsWhitespace(s[|s| - 1]) then TrimEnd(s[..|s| - 1]) else s
  }

  /** `s.trim()`. */
  function Trim(s: string): string {
    TrimEnd(TrimStart(s))
  }

  /** A string that neither starts nor ends with white space is its own trim. */
  lemma TrimKeepsUntrimmed(s: string)
    requires s != [] ==> !IsJsWhitespace(s[0]) && !IsJsWhitespace(s[|s| - 1])
    ensures Trim(s) == s
  {
  }

  /** A string without surrounding white space and without capitals is unchanged by
      `trim().toLowerCase()`. */
  lemma LowerTrimKeeps(s: string)
    requires s != [] ==> !IsJsWhitespace(s[0]) && !IsJsWhitespace(s[|s| - 1])
    requires forall i :: 0 <= i < |s| ==> !('A' <= s[i] <= 'Z')
    ensures ToLower(Trim(s)) == s
  {
    calc {
      ToLower(Trim(s));
      { TrimKeepsUntrimmed(s); }
      ToLower(s);
      { ToLowerKeepsLower(s); }
      s;
    }
  }

  ghost predicate AllWhitespace(s: string) {
    forall i :: 0 <= i < |s| ==> IsJsWhitespace(s[i])
  }

  /** Trimming yields "" exactly when the string is empty or white space only. */
  lemma TrimEmptyIff(s: string)
    ensures Trim(s) == "" <==> AllWhitespace(s)
  {
  }

  predicate IsPrefix(p: string, s: string) {
    |p| <= |s| && s[..|p|] == p
  }

  /** `s.startsWith(p)`. */
  predicate StartsWith(s: string, p: string) {
    IsPrefix(p, s)
  }

  /** `s.includes(q)`: `q` occurs in `s` at some position. */
  predicate Contains(s: string, q: string)
    decreases |s|
  {
    IsPrefix(q, s) || (s != [] && Contains(s[1..], q))
  }

  /** `q` occurs in `s` starting at position `k`. */
  ghost predicate OccursAt(s: string, q: string, k: int) {
    0 <= k <= |s| - |q| && s[k..k + |q|] == q
  }

  /** Contains agrees with "there is a position where q occurs". */
  lemma {:induction false} ContainsAt(s: string, q: string)
    ensures Contains(s, q) <==> exists k :: OccursAt(s, q, k)
    decreases |s|
  {
    if Contains(s, q) {
      if IsPrefix(q, s) {
        assert OccursAt(s, q, 0);
      } else {
        ContainsAt(s[1..], q);
        var k :| OccursAt(s[1..], q, k);
        assert s[k + 1..k + 1 + |q|] == s[1..][k..k + |q|];
        assert OccursAt(s, q, k + 1);
      }
    } else {
      forall k | OccursAt(s, q, k) ensures false {
        if k != 0 {
          ContainsAt(s[1..], q);
          assert s[1..][k - 1..k - 1 + |q|] == s[k..k + |q|];
          assert OccursAt(s[1..], q, k - 1);
        }
      }
    }
  }

  /** Every string contains itself. */
  lemma ContainsSelf(s: string)
    ensures Contains(s, s)
  {
    assert IsPrefix(s, s);
  }

  /** The order `.sort()` puts strings in when no comparator is given: lexicographic, one
      character at a time. Dafny's `char` is a Unicode scalar value while JavaScript compares
      UTF-16 code units, so the two orders agree on the Basic Multilingual Plane only: a
      character above U+FFFF sorts after U+E000 to U+FFFF here but before them in JavaScript. */
  predicate CodeUnitLe(a: string, b: string)
    decreases |a|
  {
    if a == [] then true
    else if b == [] then false
    else if a[0] != b[0] then a[0] < b[0]
    else CodeUnitLe(a[1..], b[1..])
  }

  lemma {:induction false} CodeUnitLeTotal(a: string, b: string)
    ensures CodeUnitLe(a, b) || CodeUnitLe(b, a)
    decreases |a|
  {
    if a != [] && b != [] && a[0] == b[0] {
      CodeUnitLeTotal(a[1..], b[1..]);
    }
  }

  lemma {:induction false} CodeUnitLeTransitive(a: string, b: string, c: string)
    requires CodeUnitLe(a, b) && CodeUnitLe(b, c)
    ensures CodeUnitLe(a, c)
    decreases |a|
  {
    if a != [] && b != [] && c != [] && a[0] == b[0] && b[0] == c[0] {
      CodeUnitLeTransitive(a[1..], b[1..], c[1..]);
    }
  }

  lemma {:induction false} CodeUnitLeAntisymmetric(a: string, b: string)
    requires CodeUnitLe(a, b) && CodeUnitLe(b, a)
    ensures a == b
    decreases |a|
  {
    if a != [] && b != [] {
      CodeUnitLeAntisymmetric(a[1..], b[1..]);
      assert a == [a[0]] + a[1..];
      assert b == [b[0]] + b[1..];
    }
  }

  /** The code-unit order is a total preorder. */
  lemma CodeUnitLeTotalPreorder()
    ensures TotalPreorder(CodeUnitLe)
  {
    forall a, b ensures CodeUnitLe(a, b) || CodeUnitLe(b, a) {
      CodeUnitLeTotal(a, b);
    }
    forall a, b, c | CodeUnitLe(a, b) && CodeUnitLe(b, c) ensures CodeUnitLe(a, c) {
      CodeUnitLeTransitive(a, b, c);
    }
  }

  /** `[...new Set(xs)].sort()`: the distinct strings of `xs` in code-unit order. */
  function SortedSet(xs: seq<string>): (r: seq<string>)
    ensures |r| <= |xs|
  {
    SortBy(Distinct(xs), CodeUnitLe)
  }

  /** The result is sorted, lists each string once, and holds exactly the strings of `xs`. */
  lemma SortedSetSpec(xs: seq<string>)
    ensures var r := SortedSet(xs);
            && SortedBy(r, CodeUnitLe)
            && NoDuplicates(r)
            && forall x :: x in r <==> x in xs
  {
    var d := Distinct(xs);
    var r := SortedSet(xs);
    CodeUnitLeTotalPreorder();
    SortByIsSorted(d, CodeUnitLe);
    PermutationNoDuplicates(d, r);
    forall x ensures x in r <==> x in xs {
      assert x in r <==> x in multiset(d);
      if x in d {
        var i :| 0 <= i < |d| && d[i] == x;
      }
      if x in xs {
        var k :| 0 <= k < |xs| && xs[k] == x;
      }
    }
  }

  /** A sorted, duplicate-free list with the same strings as `xs` is `SortedSet(xs)`. */
  lemma SortedSetUnique(xs: seq<string>, other: seq<string>)
    requires SortedBy(other, CodeUnitLe) && NoDuplicates(other)
    requires forall x :: x in other <==> x in xs
    ensures other == SortedSet(xs)
  {
    SortedSetSpec(xs);
    forall x, y | CodeUnitLe(x, y) && CodeUnitLe(y, x) ensures x == y {
      CodeUnitLeAntisymmetric(x, y);
    }
    StrictlySortedUnique(other, SortedSet(xs), CodeUnitLe);
  }
}
