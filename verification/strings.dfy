/**
 * Text helpers shared by the model: ASCII lower-casing (Python's `str.lower`
 * on the characters the model meets), Python's string order, and
 * `sorted(set(xs))` on strings.
 */
module Strings {

  /** Python's `str.lower` restricted to ASCII letters. */
  function LowerChar(c: char): char {
    if 'A' <= c <= 'Z' then (c as int - 'A' as int + 'a' as int) as char else c
  }

  function Lower(s: string): (r: string)
    ensures |r| == |s|
    ensures forall i :: 0 <= i < |s| ==> r[i] == LowerChar(s[i])
  {
    seq(|s|, i requires 0 <= i < |s| => LowerChar(s[i]))
  }

  lemma LowerIdempotent(s: string)
    ensures Lower(Lower(s)) == Lower(s)
  {
  }

  /** Python's `a < b` on `str`: code point by code point, a proper prefix first. */
  predicate LexLess(a: string, b: string)
    decreases |a|
  {
    if a == [] then b != []
    else if b == [] then false
    else if a[0] != b[0] then a[0] < b[0]
    else LexLess(a[1..], b[1..])
  }

  lemma {:induction false} LexLessIrreflexive(a: string)
    ensures !LexLess(a, a)
    decreases |a|
  {
    if a != [] {
      LexLessIrreflexive(a[1..]);
    }
  }

  lemma {:induction false} LexLessTransitive(a: string, b: string, c: string)
    requires LexLess(a, b) && LexLess(b, c)
    ensures LexLess(a, c)
    decreases |a|
  {
    if a != [] && b != [] && c != [] && a[0] == b[0] && b[0] == c[0] {
      LexLessTransitive(a[1..], b[1..], c[1..]);
    }
  }

  lemma {:induction false} LexLessTotal(a: string, b: string)
    requires a != b
    ensures LexLess(a, b) || LexLess(b, a)
    decreases |a|
  {
    if a != [] && b != [] && a[0] == b[0] {
      assert a == [a[0]] + a[1..] && b == [b[0]] + b[1..];
      LexLessTotal(a[1..], b[1..]);
    }
  }

  lemma LexLessAsymmetric(a: string, b: string)
    requires LexLess(a, b)
    ensures !LexLess(b, a)
  {
    if LexLess(b, a) {
      LexLessTransitive(a, b, a);
      LexLessIrreflexive(a);
    }
  }

  function Elems<T>(s: seq<T>): set<T> {
    set x | x in s
  }

  lemma HeadInElems<T>(s: seq<T>)
    ensures s != [] ==> s[0] in Elems(s)
  {
  }

  /** Strictly increasing in Python's string order: sorted and without repeats. */
  ghost predicate StrictlySorted(s: seq<string>) {
    forall i, j :: 0 <= i < j < |s| ==> LexLess(s[i], s[j])
  }

  /** Puts `x` into its place in a strictly sorted sequence, unless it is there already. */
  function Insert(x: string, s: seq<string>): (r: seq<string>)
    requires StrictlySorted(s)
    ensures StrictlySorted(r)
    ensures Elems(r) == Elems(s) + {x}
    decreases |s|
  {
    if s == [] then [x]
    else if x == s[0] then s
    else if LexLess(x, s[0]) then
      InsertBelow(x, s); [x] + s
    else
      LexLessTotal(x, s[0]);
      var tail := Insert(x, s[1..]);
      assert Elems(s) == {s[0]} + Elems(s[1..]);
      InsertAbove(s[0], tail, s[1..], x);
      assert Elems([s[0]] + tail) == {s[0]} + Elems(tail);
      [s[0]] + tail
  }

  lemma InsertBelow(x: string, s: seq<string>)
    requires StrictlySorted(s) && s != [] && LexLess(x, s[0])
    ensures StrictlySorted([x] + s)
  {
    forall j | 0 < j < |s| ensures LexLess(x, s[j]) {
      LexLessTransitive(x, s[0], s[j]);
    }
  }

  lemma InsertAbove(y: string, t: seq<string>, s: seq<string>, x: string)
    requires StrictlySorted(t) && StrictlySorted([y] + s)
    requires Elems(t) == Elems(s) + {x} && LexLess(y, x)
    ensures StrictlySorted([y] + t)
  {
    forall j | 0 <= j < |t| ensures LexLess(y, t[j]) {
      assert t[j] in Elems(t);
      if t[j] != x {
        assert t[j] in s;
        var k :| 0 <= k < |s| && s[k] == t[j];
        assert ([y] + s)[0] == y && ([y] + s)[k + 1] == s[k];
      }
    }
  }

  /** Python's `sorted(set(xs))` on strings. */
  function SortedSet(xs: seq<string>): (r: seq<string>)
    ensures StrictlySorted(r)
    ensures Elems(r) == Elems(xs)
    decreases |xs|
  {
    if xs == [] then []
    else
      assert xs == xs[..|xs| - 1] + [xs[|xs| - 1]];
      assert Elems(xs) == Elems(xs[..|xs| - 1]) + {xs[|xs| - 1]};
      Insert(xs[|xs| - 1], SortedSet(xs[..|xs| - 1]))
  }

  /** There is only one strictly sorted listing of a set of strings, so
    * `SortedSet` is the one `sorted(set(xs))` produces. */
  lemma {:induction false} SortedListingUnique(a: seq<string>, b: seq<string>)
    requires StrictlySorted(a) && StrictlySorted(b)
    requires Elems(a) == Elems(b)
    ensures a == b
    decreases |a|
  {
    if a != [] {
      assert a[0] in Elems(b);
      assert b != [];
      assert b[0] in Elems(a);
      if a[0] != b[0] {
        var i :| 0 <= i < |a| && a[i] == b[0];
        var j :| 0 <= j < |b| && b[j] == a[0];
        assert LexLess(a[0], b[0]);
        assert LexLess(b[0], a[0]);
        LexLessAsymmetric(a[0], b[0]);
      }
      forall x | x in a[1..] ensures x != a[0] {
        var k :| 0 <= k < |a[1..]| && a[1..][k] == x;
        assert LexLess(a[0], a[k + 1]);
        LexLessIrreflexive(a[0]);
      }
      forall x | x in b[1..] ensures x != b[0] {
        var k :| 0 <= k < |b[1..]| && b[1..][k] == x;
        assert LexLess(b[0], b[k + 1]);
        LexLessIrreflexive(b[0]);
      }
      assert a == [a[0]] + a[1..] && b == [b[0]] + b[1..];
      assert Elems(a) == {a[0]} + Elems(a[1..]);
      assert Elems(b) == {b[0]} + Elems(b[1..]);
      assert Elems(a[1..]) == Elems(b[1..]);
      SortedListingUnique(a[1..], b[1..]);
    } else {
      HeadInElems(b);
    }
  }
}
