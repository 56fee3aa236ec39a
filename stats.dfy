// Font-size statistics: `Counter(sizes).most_common(1)[0][0]` and
// `statistics.mean` / `sum(sizes) / len(sizes)`.

module Stats {
  function Count(s: seq<int>, x: int): (n: nat)
    ensures n <= |s|
    ensures n > 0 <==> x in s
  {
    if s == [] then 0 else (if s[0] == x then 1 else 0) + Count(s[1..], x)
  }

  function Sum(s: seq<int>): int {
    if s == [] then 0 else s[0] + Sum(s[1..])
  }

  /** How often each element occurs, position by position. */
  function Counts(s: seq<int>): (c: seq<nat>)
    ensures |c| == |s| && forall j :: 0 <= j < |s| ==> c[j] == Count(s, s[j])
  {
    seq(|s|, j requires 0 <= j < |s| => Count(s, s[j]))
  }

  /** Index of the first largest entry of `c`, scanning from `i` with the
      best so far at `best`. */
  function FirstMaxFrom(c: seq<nat>, i: nat, best: nat): (k: nat)
    requires best < i <= |c|
    ensures best <= k < |c|
    ensures c[best] <= c[k]
    ensures forall j :: i <= j < |c| ==> c[j] <= c[k]
    ensures k == best || (i <= k && c[best] < c[k] && forall j :: i <= j < k ==> c[j] < c[k])
    decreases |c| - i
  {
    if i == |c| then best
    else if c[i] > c[best] then FirstMaxFrom(c, i + 1, i)
    else FirstMaxFrom(c, i + 1, best)
  }

  /** Position of the first occurrence of the most frequent value. Counter
      keeps first-appearance order and `most_common(1)` takes the first
      maximum, so ties go to the value seen first. */
  function ModeIndex(s: seq<int>): (k: nat)
    requires s != []
    ensures k < |s|
  {
    FirstMaxFrom(Counts(s), 1, 0)
  }

  function Mode(s: seq<int>): int
    requires s != []
  {
    s[ModeIndex(s)]
  }

  lemma CountPositive(s: seq<int>, j: nat)
    requires j < |s|
    ensures Count(s, s[j]) > 0
  {
    assert s[j] in s;
  }

  /** The mode is an input value; no value is more frequent; every value
      that first appears before it is strictly less frequent. */
  lemma ModeProperties(s: seq<int>)
    requires s != []
    ensures Mode(s) in s
    ensures forall x :: Count(s, x) <= Count(s, Mode(s))
    ensures forall j :: 0 <= j < ModeIndex(s) ==> Count(s, s[j]) < Count(s, Mode(s))
  {
    var c := Counts(s);
    var k := ModeIndex(s);
    assert c[k] == Count(s, Mode(s));
    assert forall j :: 0 <= j < |s| ==> c[j] <= c[k] by {
      assert c[0] <= c[k];
    }
    forall x ensures Count(s, x) <= Count(s, Mode(s)) {
      if x in s {
        var j :| 0 <= j < |s| && s[j] == x;
        assert c[j] == Count(s, x);
      }
    }
  }

  lemma {:induction false} SumBounds(s: seq<int>, lo: int, hi: int)
    requires forall i :: 0 <= i < |s| ==> lo <= s[i] <= hi
    ensures |s| * lo <= Sum(s) <= |s| * hi
    decreases |s|
  {
    if s != [] {
      SumBounds(s[1..], lo, hi);
    }
  }

  function Mean(s: seq<int>): real
    requires s != []
  {
    Sum(s) as real / |s| as real
  }

  function MinOf(s: seq<int>): (m: int)
    requires s != []
    ensures m in s && forall i :: 0 <= i < |s| ==> m <= s[i]
  {
    if |s| == 1 then s[0]
    else var r := MinOf(s[1..]); assert forall i :: 1 <= i < |s| ==> s[i] == s[1..][i - 1]; if s[0] <= r then s[0] else r
  }

  function MaxOf(s: seq<int>): (m: int)
    requires s != []
    ensures m in s && forall i :: 0 <= i < |s| ==> s[i] <= m
  {
    if |s| == 1 then s[0]
    else var r := MaxOf(s[1..]); assert forall i :: 1 <= i < |s| ==> s[i] == s[1..][i - 1]; if s[0] >= r then s[0] else r
  }

  /** The mean lies between the smallest and the largest value. */
  lemma MeanBetween(s: seq<int>)
    requires s != []
    ensures MinOf(s) as real <= Mean(s) <= MaxOf(s) as real
  {
    MeanWithin(s, MinOf(s), MaxOf(s));
  }

  lemma MeanWithin(s: seq<int>, lo: int, hi: int)
    requires s != [] && forall i :: 0 <= i < |s| ==> lo <= s[i] <= hi
    ensures lo as real <= Mean(s) <= hi as real
  {
    SumBounds(s, lo, hi);
    CastBounds(|s|, lo, hi, Sum(s));
    DivBounds(Sum(s) as real, |s| as real, lo as real, hi as real);
  }

  lemma {:induction false} CastMul(n: nat, x: int)
    ensures (n * x) as real == n as real * x as real
  {
    if n > 0 {
      CastMul(n - 1, x);
      assert n * x == (n - 1) * x + x;
      assert n as real * x as real == (n - 1) as real * x as real + x as real;
    }
  }

  lemma CastBounds(n: nat, lo: int, hi: int, t: int)
    requires n * lo <= t <= n * hi
    ensures n as real * lo as real <= t as real <= n as real * hi as real
  {
    CastMul(n, lo);
    CastMul(n, hi);
  }

  lemma DivBounds(x: real, n: real, lo: real, hi: real)
    requires n > 0.0 && n * lo <= x <= n * hi
    ensures lo <= x / n <= hi
  {
    assert x / n * n == x;
  }
}
