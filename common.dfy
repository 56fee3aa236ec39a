// Types shared by every variant of the outline extractor: the text
// fragments the PDF layer hands over, and the outline entries produced.

module Common {
  datatype Option<T> = None | Some(value: T)

  /** One styled text run of a page. Sizes and coordinates are in
      hundredths of a point; `flags` is the PDF layer's style bit set. */
  datatype Span = Span(text: string, size: int, flags: nat, font: string, page: int, y0: int, y1: int)

  /** One outline entry; `level` n stands for the label "H<n>". */
  datatype Entry = Entry(level: nat, text: string, page: int)

  /** Bit 4 (value 16) of the style flags marks a bold span. */
  predicate BoldFlag(flags: nat) { (flags / 16) % 2 == 1 }

  /** Bit 1 (value 2) of the style flags marks an italic span. */
  predicate ItalicFlag(flags: nat) { (flags / 2) % 2 == 1 }

  predicate PagesNonDecreasing(out: seq<Entry>) {
    forall i, j :: 0 <= i < j < |out| ==> out[i].page <= out[j].page
  }

  predicate LevelsWithin(out: seq<Entry>, lo: nat, hi: nat) {
    forall i :: 0 <= i < |out| ==> lo <= out[i].level <= hi
  }

  function Min(a: int, b: int): int { if a <= b then a else b }
  function Max(a: int, b: int): int { if a >= b then a else b }

  /** Concatenation is associative; stated once so that busy proofs can
      cite it instead of rediscovering it element by element. */
  lemma AppendAssoc<T>(a: seq<T>, b: seq<T>, c: seq<T>)
    ensures a + (b + c) == (a + b) + c
  {
  }

  /** A non-empty list is its front followed by its last element. */
  lemma LastSplit<T>(s: seq<T>)
    requires s != []
    ensures s == s[..|s| - 1] + [s[|s| - 1]]
  {
  }

  /** Dropping past a prefix drops into what follows it. */
  lemma DropPastPrefix<T>(p: seq<T>, u: seq<T>, k: nat)
    requires k <= |u|
    ensures (p + u)[|p| + k..] == u[k..]
  {
  }

  /** A slice that reaches the end is the whole suffix. */
  lemma SliceToEnd<T>(s: seq<T>, k: nat, m: nat)
    requires |s| == k + m
    ensures s[k..k + m] == s[k..]
  {
  }

  /** The first `n` elements, or all of them when there are fewer
      (Python's `s[:n]`). */
  function Take<T>(s: seq<T>, n: nat): (r: seq<T>)
    ensures |r| == Min(n, |s|) && r == s[..|r|]
  {
    if |s| <= n then s else s[..n]
  }

  /** `[f(x) for x in s]`: one image per element, in input order. */
  function MapSeq<A, B>(s: seq<A>, f: A -> B): (r: seq<B>)
    ensures |r| == |s|
    ensures forall i :: 0 <= i < |s| ==> r[i] == f(s[i])
  {
    if s == [] then []
    else
      var init := MapSeq(s[..|s| - 1], f);
      assert forall i :: 0 <= i < |s| - 1 ==> s[i] == s[..|s| - 1][i];
      init + [f(s[|s| - 1])]
  }

  /** One more element of the input: the loop step of a mapping loop. */
  lemma MapSeqSnoc<A, B>(s: seq<A>, n: nat, f: A -> B)
    requires n < |s|
    ensures MapSeq(s[..n + 1], f) == MapSeq(s[..n], f) + [f(s[n])]
  {
    assert s[..n + 1][..n] == s[..n];
  }

  /** Mapping a sequence with one more element at its end. */
  lemma MapSeqAppend<A, B>(s: seq<A>, x: A, f: A -> B)
    ensures MapSeq(s + [x], f) == MapSeq(s, f) + [f(x)]
  {
    assert (s + [x])[..|s|] == s;
  }

  /** An element of a reordering of a mapped sequence is an image. */
  lemma InMapSeq<A, B>(s: seq<A>, f: A -> B, o: seq<B>, y: B)
    requires multiset(o) == multiset(MapSeq(s, f)) && y in o
    ensures exists n :: 0 <= n < |s| && f(s[n]) == y
  {
    assert y in multiset(MapSeq(s, f));
    var n :| 0 <= n < |s| && MapSeq(s, f)[n] == y;
  }

  /** `[y for x in s for y in f(x)]`: the images of the elements, one
      after another, in input order. */
  function ConcatMap<A, B>(s: seq<A>, f: A -> seq<B>): seq<B> {
    if s == [] then [] else ConcatMap(s[..|s| - 1], f) + f(s[|s| - 1])
  }

  /** One more element of the input: the loop step of a nested loop. */
  lemma ConcatMapSnoc<A, B>(s: seq<A>, n: nat, f: A -> seq<B>)
    requires n < |s|
    ensures ConcatMap(s[..n + 1], f) == ConcatMap(s[..n], f) + f(s[n])
  {
    assert s[..n + 1][..n] == s[..n];
  }

  /** Everything the nested loop yields comes from one element, and
      everything the elements yield is there. */
  lemma {:induction false} InConcatMap<A, B>(s: seq<A>, f: A -> seq<B>, y: B)
    ensures y in ConcatMap(s, f) <==> exists i :: 0 <= i < |s| && y in f(s[i])
    decreases |s|
  {
    if s != [] {
      var init := s[..|s| - 1];
      InConcatMap(init, f, y);
      if y in ConcatMap(init, f) {
        var i :| 0 <= i < |init| && y in f(init[i]);
        assert init[i] == s[i];
      }
      if exists i :: 0 <= i < |s| && y in f(s[i]) {
        var i :| 0 <= i < |s| && y in f(s[i]);
        if i < |init| { assert init[i] == s[i]; }
      }
    }
  }

  /** `[y for n, x in enumerate(s) for y in f(x, n)]`: like ConcatMap,
      where each element also sees its index. */
  function ConcatMapIndexed<A, B>(s: seq<A>, f: (A, nat) -> seq<B>): seq<B> {
    if s == [] then [] else ConcatMapIndexed(s[..|s| - 1], f) + f(s[|s| - 1], |s| - 1)
  }

  lemma ConcatMapIndexedSnoc<A, B>(s: seq<A>, n: nat, f: (A, nat) -> seq<B>)
    requires n < |s|
    ensures ConcatMapIndexed(s[..n + 1], f) == ConcatMapIndexed(s[..n], f) + f(s[n], n)
  {
    assert s[..n + 1][..n] == s[..n];
  }

  lemma {:induction false} InConcatMapIndexed<A, B>(s: seq<A>, f: (A, nat) -> seq<B>, y: B)
    ensures y in ConcatMapIndexed(s, f) <==> exists i :: 0 <= i < |s| && y in f(s[i], i)
    decreases |s|
  {
    if s != [] {
      var init := s[..|s| - 1];
      InConcatMapIndexed(init, f, y);
      if y in ConcatMapIndexed(init, f) {
        var i :| 0 <= i < |init| && y in f(init[i], i);
        assert init[i] == s[i];
      }
      if exists i :: 0 <= i < |s| && y in f(s[i], i) {
        var i :| 0 <= i < |s| && y in f(s[i], i);
        if i < |init| { assert init[i] == s[i]; }
      }
    }
  }

  /** `[x for x in s if p(x)]`: the elements that pass, in input order. */
  function Filter<T>(s: seq<T>, p: T -> bool): (r: seq<T>)
    ensures |r| <= |s|
    ensures forall i :: 0 <= i < |r| ==> p(r[i]) && r[i] in s
    ensures forall i :: 0 <= i < |s| && p(s[i]) ==> s[i] in r
  {
    if s == [] then []
    else
      var init := Filter(s[..|s| - 1], p);
      assert forall i :: 0 <= i < |s| - 1 ==> s[i] == s[..|s| - 1][i];
      init + (if p(s[|s| - 1]) then [s[|s| - 1]] else [])
  }

  /** One more element of the input: the loop step of a filtering loop. */
  lemma FilterSnoc<T>(s: seq<T>, n: nat, p: T -> bool)
    requires n < |s|
    ensures Filter(s[..n + 1], p) == Filter(s[..n], p) + (if p(s[n]) then [s[n]] else [])
  {
    assert s[..n + 1][..n] == s[..n];
  }

  /** Filtering distributes over concatenation, so it keeps input order. */
  lemma {:induction false} FilterConcat<T>(a: seq<T>, b: seq<T>, p: T -> bool)
    ensures Filter(a + b, p) == Filter(a, p) + Filter(b, p)
    decreases |b|
  {
    if b != [] {
      var b0 := b[..|b| - 1];
      assert (a + b)[..|a + b| - 1] == a + b0;
      assert (a + b)[|a + b| - 1] == b[|b| - 1];
      FilterConcat(a, b0, p);
    } else {
      assert a + b == a;
    }
  }

  /** Position of the first element that satisfies `p`, if any. */
  function FirstWhere<T>(s: seq<T>, p: T -> bool): (r: Option<nat>)
    ensures r.Some? ==> r.value < |s| && p(s[r.value]) && forall j :: 0 <= j < r.value ==> !p(s[j])
    ensures r.None? ==> forall j :: 0 <= j < |s| ==> !p(s[j])
  {
    if s == [] then None
    else if p(s[0]) then Some(0)
    else match FirstWhere(s[1..], p)
      case None => None
      case Some(k) => Some(k + 1)
  }

  /** Some pattern of the list matches (`any(...)`, or a loop that returns
      at the first match). */
  predicate AnyMatch<T>(ps: seq<T -> bool>, x: T) {
    exists i :: 0 <= i < |ps| && ps[i](x)
  }

  /** The `for pattern in patterns: if re.match(...): ...; break` loop. */
  method MatchAny<T>(ps: seq<T -> bool>, x: T) returns (matched: bool)
    ensures matched == AnyMatch(ps, x)
  {
    var i := 0;
    matched := false;
    while i < |ps| && !matched
      invariant 0 <= i <= |ps|
      invariant matched ==> AnyMatch(ps, x)
      invariant !matched ==> forall j :: 0 <= j < i ==> !ps[j](x)
    {
      matched := ps[i](x);
      i := i + 1;
    }
  }

  /** The first element that passes the filter is the first element of
      the input that satisfies `p`. */
  lemma {:induction false} FilterHead<T>(s: seq<T>, p: T -> bool)
    ensures Filter(s, p) == [] <==> FirstWhere(s, p).None?
    ensures Filter(s, p) != [] ==> Filter(s, p)[0] == s[FirstWhere(s, p).value]
    decreases |s|
  {
    if s != [] {
      var init := s[..|s| - 1];
      FilterHead(init, p);
      var f := FirstWhere(s, p);
      var g := FirstWhere(init, p);
      if g.Some? {
        assert init[g.value] == s[g.value];
        assert forall j :: 0 <= j < |s| - 1 ==> s[j] == init[j];
      } else if p(s[|s| - 1]) {
        assert forall j :: 0 <= j < |s| - 1 ==> s[j] == init[j];
        assert f == Some(|s| - 1);
      } else {
        assert forall j :: 0 <= j < |s| - 1 ==> s[j] == init[j];
      }
    }
  }

  /** `a` is `b` with some elements left out, the rest in the same order. */
  predicate SubseqOf<T(==)>(a: seq<T>, b: seq<T>)
    decreases |b|
  {
    a == [] || (b != [] && ((a[0] == b[0] && SubseqOf(a[1..], b[1..])) || SubseqOf(a, b[1..])))
  }

  lemma {:induction false} SubseqMembers<T>(a: seq<T>, b: seq<T>)
    requires SubseqOf(a, b)
    ensures forall x :: x in a ==> x in b
    decreases |b|
  {
    if a != [] {
      if a[0] == b[0] && SubseqOf(a[1..], b[1..]) {
        SubseqMembers(a[1..], b[1..]);
        forall x | x in a ensures x in b {
          if x != a[0] {
            assert x in a[1..];
          }
        }
      } else {
        SubseqMembers(a, b[1..]);
      }
    }
  }

  /** Leaving entries out of a page-ordered outline keeps it page-ordered. */
  lemma {:induction false} SubseqPages(a: seq<Entry>, b: seq<Entry>)
    requires SubseqOf(a, b) && PagesNonDecreasing(b)
    ensures PagesNonDecreasing(a)
    decreases |b|
  {
    if a != [] {
      assert PagesNonDecreasing(b[1..]);
      if a[0] == b[0] && SubseqOf(a[1..], b[1..]) {
        SubseqPages(a[1..], b[1..]);
        SubseqMembers(a[1..], b[1..]);
        forall i, j | 0 <= i < j < |a| ensures a[i].page <= a[j].page {
          assert a[j] == a[1..][j - 1];
          if i > 0 {
            assert a[i] == a[1..][i - 1];
          } else {
            assert a[j] in a[1..];
            var k :| 0 <= k < |b[1..]| && b[1..][k] == a[j];
            assert b[k + 1] == a[j];
          }
        }
      } else {
        SubseqPages(a, b[1..]);
      }
    }
  }
}
