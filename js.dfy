/** The few pieces of JavaScript runtime behaviour the game screen relies on:
    `Array.prototype.filter`, `Array.prototype.find`, `String.prototype.toLowerCase`
    and `Math.round`, stated over exact values (unbounded integers, exact reals). */
module Js {

  datatype Option<T> = None | Some(value: T)

  /** `s.filter(p)`: the elements of `s` that satisfy `p`, in their original order. */
  function Filter<T>(s: seq<T>, p: T -> bool): (r: seq<T>)
    ensures |r| <= |s|
    ensures forall i :: 0 <= i < |r| ==> p(r[i])
    ensures forall x :: x in r ==> x in s
  {
    if s == [] then []
    else (if p(s[0]) then [s[0]] else []) + Filter(s[1..], p)
  }

  /** Filtering a concatenation filters each part: together with the one-element case this
      pins `Filter` down as "the satisfying elements, in order". */
  lemma {:induction false} FilterConcat<T>(a: seq<T>, b: seq<T>, p: T -> bool)
    ensures Filter(a + b, p) == Filter(a, p) + Filter(b, p)
  {
    if a == [] {
      assert a + b == b;
    } else {
      assert (a + b)[1..] == a[1..] + b;
      FilterConcat(a[1..], b, p);
    }
  }

  /** Every element that satisfies `p` is kept as often as it occurs; every other one is dropped. */
  lemma {:induction false} FilterMultiset<T>(s: seq<T>, p: T -> bool, x: T)
    ensures multiset(Filter(s, p))[x] == if p(x) then multiset(s)[x] else 0
  {
    if s != [] {
      FilterMultiset(s[1..], p, x);
      assert s == [s[0]] + s[1..];
      assert multiset(s) == multiset{s[0]} + multiset(s[1..]);
    }
  }

  /** An element is kept exactly when it occurs in `s` and satisfies `p`. */
  lemma FilterMembership<T>(s: seq<T>, p: T -> bool, x: T)
    ensures x in Filter(s, p) <==> x in s && p(x)
  {
    FilterMultiset(s, p, x);
    assert x in Filter(s, p) <==> multiset(Filter(s, p))[x] > 0;
  }

  /** Filtering keeps everything when every element satisfies `p`. */
  lemma {:induction false} FilterKeepsAll<T>(s: seq<T>, p: T -> bool)
    requires forall i :: 0 <= i < |s| ==> p(s[i])
    ensures Filter(s, p) == s
  {
    if s != [] {
      FilterKeepsAll(s[1..], p);
    }
  }

  /** Filtering keeps nothing when no element satisfies `p`. */
  lemma {:induction false} FilterKeepsNone<T>(s: seq<T>, p: T -> bool)
    requires forall i :: 0 <= i < |s| ==> !p(s[i])
    ensures Filter(s, p) == []
  {
    if s != [] {
      FilterKeepsNone(s[1..], p);
    }
  }

  /** Two tests that agree on every element of `s` filter it the same way. */
  lemma {:induction false} FilterSameTest<T>(s: seq<T>, p: T -> bool, q: T -> bool)
    requires forall i :: 0 <= i < |s| ==> p(s[i]) == q(s[i])
    ensures Filter(s, p) == Filter(s, q)
  {
    if s != [] {
      FilterSameTest(s[1..], p, q);
    }
  }

  /** Filtering twice with the same test changes nothing the second time. */
  lemma FilterIdempotent<T>(s: seq<T>, p: T -> bool)
    ensures Filter(Filter(s, p), p) == Filter(s, p)
  {
    FilterKeepsAll(Filter(s, p), p);
  }

  /** `s.find(p)`: the first element of `s` that satisfies `p`, or `undefined` (`None`). */
  function Find<T>(s: seq<T>, p: T -> bool): (r: Option<T>)
    ensures r.Some? ==> r.value in s && p(r.value)
    ensures r.None? <==> forall i :: 0 <= i < |s| ==> !p(s[i])
  {
    if s == [] then None
    else if p(s[0]) then Some(s[0])
    else Find(s[1..], p)
  }

  /** `Find` returns the element at the first index that satisfies `p`. */
  lemma {:induction false} FindFirst<T>(s: seq<T>, p: T -> bool, i: nat)
    requires i < |s| && p(s[i])
    requires forall j :: 0 <= j < i ==> !p(s[j])
    ensures Find(s, p) == Some(s[i])
  {
    if i > 0 {
      FindFirst(s[1..], p, i - 1);
    }
  }

  /** `c.toLowerCase()` on one character, for the ASCII letters A-Z. */
  function LowerChar(c: char): (d: char)
    ensures 'A' <= c <= 'Z' ==> d as int == c as int + 32
    ensures !('A' <= c <= 'Z') ==> d == c
  {
    if 'A' <= c <= 'Z' then (c as int + 32) as char else c
  }

  /** `s.toLowerCase()`, character by character. */
  function ToLowerCase(s: string): (r: string)
    ensures |r| == |s|
    ensures forall i :: 0 <= i < |s| ==> r[i] == LowerChar(s[i])
  {
    seq(|s|, i requires 0 <= i < |s| => LowerChar(s[i]))
  }

  /** Lower-casing is idempotent. */
  lemma ToLowerCaseIdempotent(s: string)
    ensures ToLowerCase(ToLowerCase(s)) == ToLowerCase(s)
  {
  }

  /** `Math.round(x)`: the nearest integer, halves rounded up (towards +infinity). */
  function MathRound(x: real): (n: int)
    ensures n as real - 0.5 <= x < n as real + 0.5
  {
    (x + 0.5).Floor
  }

  /** On a non-negative fraction `num / den`, `Math.round` is an integer division. */
  lemma RoundFraction(num: nat, den: nat)
    requires den > 0
    ensures MathRound(num as real / den as real) == (2 * num + den) / (2 * den)
  {
    var n := MathRound(num as real / den as real);
    ScaleRoundingBounds(num, den, n);
    RoundUnique(2 * num + den, 2 * den, n, (2 * num + den) / (2 * den));
  }

  /** Multiplying the rounding bounds of `num / den` through by `2*den`. */
  lemma ScaleRoundingBounds(num: nat, den: nat, n: int)
    requires den > 0
    requires n as real - 0.5 <= num as real / den as real < n as real + 0.5
    ensures 2 * den * n <= 2 * num + den < 2 * den * n + 2 * den
  {
    LowerScaled(num, den, n);
    UpperScaled(num, den, n);
  }

  lemma LowerScaled(num: nat, den: nat, n: int)
    requires den > 0
    requires n as real - 0.5 <= num as real / den as real
    ensures 2 * den * n - den <= 2 * num
  {
    var x := num as real / den as real;
    RealMulMonotone(n as real - 0.5, x, 2.0 * den as real);
    FractionTimesTwice(num, den);
    HalfBelowTimesTwice(n, den);
  }

  lemma UpperScaled(num: nat, den: nat, n: int)
    requires den > 0
    requires num as real / den as real < n as real + 0.5
    ensures 2 * num < 2 * den * n + den
  {
    var x := num as real / den as real;
    RealMulStrict(x, n as real + 0.5, 2.0 * den as real);
    FractionTimesTwice(num, den);
    HalfAboveTimesTwice(n, den);
  }

  lemma FractionTimesTwice(num: nat, den: nat)
    requires den > 0
    ensures (num as real / den as real) * (2.0 * den as real) == (2 * num) as real
  {
  }

  lemma HalfBelowTimesTwice(n: int, den: nat)
    ensures (n as real - 0.5) * (2.0 * den as real) == (2 * den * n - den) as real
  {
  }

  lemma HalfAboveTimesTwice(n: int, den: nat)
    ensures (n as real + 0.5) * (2.0 * den as real) == (2 * den * n + den) as real
  {
  }

  lemma RealMulMonotone(a: real, b: real, c: real)
    requires a <= b && c >= 0.0
    ensures a * c <= b * c
  {
  }

  lemma RealMulStrict(a: real, b: real, c: real)
    requires a < b && c > 0.0
    ensures a * c < b * c
  {
  }

  /** The quotient of `a` by `b` is the only `m` with `b*m <= a < b*m + b`. */
  lemma RoundUnique(a: int, b: int, m: int, q: int)
    requires b > 0
    requires b * m <= a < b * m + b
    requires b * q <= a < b * q + b
    ensures m == q
  {
    NegativeFactor(b, m - q - 1);
    NegativeFactor(b, q - m - 1);
  }

  lemma NegativeFactor(b: int, x: int)
    requires b > 0 && b * x < 0
    ensures x < 0
  {
  }

  lemma MulMonotone(b: int, x: int, y: int)
    requires b > 0 && x <= y
    ensures b * x <= b * y
  {
  }
}
