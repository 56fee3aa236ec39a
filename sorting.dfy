// Python's `sorted` / `list.sort`: a stable sort on tuple keys. Keys are
// integer tuples compared lexicographically; a descending component
// (`reverse=True`, or a negated field) is written as its negation.

module Sorting {
  import opened Common

  /** Tuple order: the first differing component decides, and a proper
      prefix comes first. */
  predicate LexLe(a: seq<int>, b: seq<int>)
    decreases |a|
  {
    a == [] || (b != [] && (a[0] < b[0] || (a[0] == b[0] && LexLe(a[1..], b[1..]))))
  }

  lemma {:induction false} LexLeRefl(a: seq<int>)
    ensures LexLe(a, a)
    decreases |a|
  {
    if a != [] { LexLeRefl(a[1..]); }
  }

  lemma {:induction false} LexLeTotal(a: seq<int>, b: seq<int>)
    ensures LexLe(a, b) || LexLe(b, a)
    decreases |a|
  {
    if a != [] && b != [] && a[0] == b[0] { LexLeTotal(a[1..], b[1..]); }
  }

  lemma {:induction false} LexLeTrans(a: seq<int>, b: seq<int>, c: seq<int>)
    requires LexLe(a, b) && LexLe(b, c)
    ensures LexLe(a, c)
    decreases |a|
  {
    if a != [] && a[0] == b[0] && b[0] == c[0] { LexLeTrans(a[1..], b[1..], c[1..]); }
  }

  lemma {:induction false} LexLeAntisym(a: seq<int>, b: seq<int>)
    requires LexLe(a, b) && LexLe(b, a)
    ensures a == b
    decreases |a|
  {
    if a != [] {
      LexLeAntisym(a[1..], b[1..]);
      assert a == [a[0]] + a[1..] && b == [b[0]] + b[1..];
    }
  }

  /** A one-component key orders like the integer itself. */
  lemma LexLeSingle(x: int, y: int)
    ensures LexLe([x], [y]) <==> x <= y
  {
    assert [x][1..] == [] && [y][1..] == [];
  }

  /** Two-component keys order by the first component, then the second. */
  lemma LexLePair(x1: int, x2: int, y1: int, y2: int)
    ensures LexLe([x1, x2], [y1, y2]) <==> x1 < y1 || (x1 == y1 && x2 <= y2)
  {
    assert [x1, x2][1..] == [x2] && [y1, y2][1..] == [y2];
    LexLeSingle(x2, y2);
  }

  predicate SortedBy<T>(s: seq<T>, key: T -> seq<int>) {
    forall i, j :: 0 <= i < j < |s| ==> LexLe(key(s[i]), key(s[j]))
  }

  /** Insert after every element whose key is not greater: this is what
      keeps equal keys in their original order. */
  function Insert<T>(x: T, s: seq<T>, key: T -> seq<int>): (r: seq<T>)
    ensures |r| == |s| + 1
    ensures multiset(r) == multiset(s) + multiset{x}
  {
    if s == [] then [x]
    else if !LexLe(key(s[0]), key(x)) then [x] + s
    else assert s == [s[0]] + s[1..]; [s[0]] + Insert(x, s[1..], key)
  }

  /** Python's `sorted(s, key=key)`. */
  function SortBy<T>(s: seq<T>, key: T -> seq<int>): (r: seq<T>)
    ensures |r| == |s|
    ensures multiset(r) == multiset(s)
  {
    if s == [] then []
    else assert s == s[..|s| - 1] + [s[|s| - 1]]; Insert(s[|s| - 1], SortBy(s[..|s| - 1], key), key)
  }

  lemma {:induction false} InsertSorted<T>(x: T, s: seq<T>, key: T -> seq<int>)
    requires SortedBy(s, key)
    ensures SortedBy(Insert(x, s, key), key)
    decreases |s|
  {
    if s == [] {
    } else if !LexLe(key(s[0]), key(x)) {
      LexLeTotal(key(s[0]), key(x));
      forall j | 0 <= j < |s| ensures LexLe(key(x), key(s[j])) {
        if j > 0 { LexLeTrans(key(x), key(s[0]), key(s[j])); }
      }
    } else {
      var rest := Insert(x, s[1..], key);
      InsertSorted(x, s[1..], key);
      forall j | 0 <= j < |rest| ensures LexLe(key(s[0]), key(rest[j])) {
        assert rest[j] in multiset(rest);
        if rest[j] != x {
          assert rest[j] in multiset(s[1..]);
          var k :| 0 <= k < |s[1..]| && s[1..][k] == rest[j];
          assert s[1..][k] == s[k + 1];
        }
      }
      var r := [s[0]] + rest;
      forall i, j | 0 <= i < j < |r| ensures LexLe(key(r[i]), key(r[j])) {
        if i > 0 { assert r[i] == rest[i - 1] && r[j] == rest[j - 1]; }
        else { assert r[j] == rest[j - 1]; }
      }
    }
  }

  lemma {:induction false} SortBySorted<T>(s: seq<T>, key: T -> seq<int>)
    ensures SortedBy(SortBy(s, key), key)
    decreases |s|
  {
    if s != [] {
      SortBySorted(s[..|s| - 1], key);
      InsertSorted(s[|s| - 1], SortBy(s[..|s| - 1], key), key);
    }
  }

  /** The elements of `s` whose key is `k`, in their order in `s`. */
  function KeyFilter<T>(s: seq<T>, key: T -> seq<int>, k: seq<int>): (r: seq<T>)
    ensures |r| <= |s|
  {
    if s == [] then [] else (if key(s[0]) == k then [s[0]] else []) + KeyFilter(s[1..], key, k)
  }

  lemma {:induction false} KeyFilterAppend<T>(s: seq<T>, x: T, key: T -> seq<int>, k: seq<int>)
    ensures KeyFilter(s + [x], key, k) == KeyFilter(s, key, k) + (if key(x) == k then [x] else [])
    decreases |s|
  {
    if s != [] {
      assert (s + [x])[1..] == s[1..] + [x];
      KeyFilterAppend(s[1..], x, key, k);
    }
  }

  lemma {:induction false} KeyFilterNone<T>(s: seq<T>, key: T -> seq<int>, k: seq<int>)
    requires forall i :: 0 <= i < |s| ==> key(s[i]) != k
    ensures KeyFilter(s, key, k) == []
    decreases |s|
  {
    if s != [] { KeyFilterNone(s[1..], key, k); }
  }

  lemma {:induction false} InsertKeyFilter<T>(x: T, s: seq<T>, key: T -> seq<int>, k: seq<int>)
    requires SortedBy(s, key)
    ensures KeyFilter(Insert(x, s, key), key, k) == KeyFilter(s, key, k) + (if key(x) == k then [x] else [])
    decreases |s|
  {
    if s == [] {
    } else if !LexLe(key(s[0]), key(x)) {
      if key(x) == k {
        KeyBelowHead(x, s, key);
        KeyFilterNone(s, key, k);
      }
      KeyFilterCons(x, s, key, k);
    } else {
      var rest := s[1..];
      SortedTail(s, key);
      InsertKeyFilter(x, rest, key, k);
      KeyFilterCons(s[0], Insert(x, rest, key), key, k);
      KeyFilterCons(s[0], rest, key, k);
      assert s == [s[0]] + rest;
      AppendAssoc(if key(s[0]) == k then [s[0]] else [], KeyFilter(rest, key, k), if key(x) == k then [x] else []);
    }
  }

  lemma KeyFilterCons<T>(y: T, s: seq<T>, key: T -> seq<int>, k: seq<int>)
    ensures KeyFilter([y] + s, key, k) == (if key(y) == k then [y] else []) + KeyFilter(s, key, k)
  {
    assert ([y] + s)[1..] == s;
  }

  lemma SortedTail<T>(s: seq<T>, key: T -> seq<int>)
    requires s != [] && SortedBy(s, key)
    ensures SortedBy(s[1..], key)
  {
    var rest := s[1..];
    forall i, j | 0 <= i < j < |rest| ensures LexLe(key(rest[i]), key(rest[j])) {
      assert rest[i] == s[i + 1] && rest[j] == s[j + 1];
    }
  }

  /** An element that sorts before the head of a sorted list shares its key
      with none of its elements. */
  lemma KeyBelowHead<T>(x: T, s: seq<T>, key: T -> seq<int>)
    requires s != [] && SortedBy(s, key) && !LexLe(key(s[0]), key(x))
    ensures forall i :: 0 <= i < |s| ==> key(s[i]) != key(x)
  {
    forall i | 0 <= i < |s| ensures key(s[i]) != key(x) {
      if i == 0 {
        LexLeRefl(key(s[0]));
      } else {
        assert LexLe(key(s[0]), key(s[i]));
      }
    }
  }

  /** Stability: the elements that share a key keep their relative order. */
  lemma {:induction false} SortByStable<T>(s: seq<T>, key: T -> seq<int>, k: seq<int>)
    ensures KeyFilter(SortBy(s, key), key, k) == KeyFilter(s, key, k)
    decreases |s|
  {
    if s != [] {
      var init, x := s[..|s| - 1], s[|s| - 1];
      assert init + [x] == s;
      var sorted := SortBy(init, key);
      assert SortBy(s, key) == Insert(x, sorted, key);
      SortByStable(init, key, k);
      SortBySorted(init, key);
      InsertKeyFilter(x, sorted, key, k);
      KeyFilterAppend(init, x, key, k);
    }
  }

  /** The head of a sorted list is the first element of the input whose key
      is minimal: no element has a smaller key, and no element before it
      has the same key. */
  lemma SortByHead<T>(s: seq<T>, key: T -> seq<int>)
    requires s != []
    ensures SortBy(s, key)[0] in multiset(s)
    ensures forall j :: 0 <= j < |s| ==> LexLe(key(SortBy(s, key)[0]), key(s[j]))
    ensures exists i :: (0 <= i < |s| && s[i] == SortBy(s, key)[0] &&
                         forall j :: 0 <= j < i ==> key(s[j]) != key(s[i]))
  {
    var r := SortBy(s, key);
    SortBySorted(s, key);
    assert r[0] in multiset(r);
    forall j | 0 <= j < |s| ensures LexLe(key(r[0]), key(s[j])) {
      assert s[j] in multiset(r);
      var m :| 0 <= m < |r| && r[m] == s[j];
      if m == 0 { LexLeRefl(key(r[0])); }
    }
    var k := key(r[0]);
    SortByStable(s, key, k);
    FirstOfKeyFilter(s, key, k);
  }

  lemma {:induction false} FirstOfKeyFilter<T>(s: seq<T>, key: T -> seq<int>, k: seq<int>)
    requires SortBy(s, key) != [] && key(SortBy(s, key)[0]) == k
    requires KeyFilter(SortBy(s, key), key, k) == KeyFilter(s, key, k)
    ensures exists i :: (0 <= i < |s| && s[i] == SortBy(s, key)[0] &&
                         forall j :: 0 <= j < i ==> key(s[j]) != key(s[i]))
  {
    var r := SortBy(s, key);
    assert KeyFilter(r, key, k)[0] == r[0];
    KeyFilterHead(s, key, k);
  }

  lemma {:induction false} KeyFilterHead<T>(s: seq<T>, key: T -> seq<int>, k: seq<int>)
    requires KeyFilter(s, key, k) != []
    ensures exists i :: (0 <= i < |s| && s[i] == KeyFilter(s, key, k)[0] && key(s[i]) == k &&
                         forall j :: 0 <= j < i ==> key(s[j]) != k)
    decreases |s|
  {
    if key(s[0]) != k {
      KeyFilterHead(s[1..], key, k);
      var i :| 0 <= i < |s[1..]| && s[1..][i] == KeyFilter(s[1..], key, k)[0] && key(s[1..][i]) == k &&
        forall j :: 0 <= j < i ==> key(s[1..][j]) != k;
      assert s[i + 1] == s[1..][i];
      forall j | 0 <= j < i + 1 ensures key(s[j]) != k {
        if j > 0 { assert s[j] == s[1..][j - 1]; }
      }
    }
  }

  /** Among the elements whose key is `k`, the first that satisfies `p`
      is the first such element of the whole input. */
  lemma {:induction false} FirstMatchInKeyFilter<T>(s: seq<T>, key: T -> seq<int>, k: seq<int>, p: T -> bool, i: nat)
    requires i < |s| && key(s[i]) == k && p(s[i])
    requires forall j :: 0 <= j < i ==> !(key(s[j]) == k && p(s[j]))
    ensures FirstWhere(KeyFilter(s, key, k), p).Some?
    ensures KeyFilter(s, key, k)[FirstWhere(KeyFilter(s, key, k), p).value] == s[i]
    decreases i
  {
    var kf := KeyFilter(s, key, k);
    var rest := KeyFilter(s[1..], key, k);
    if i == 0 {
      assert kf[0] == s[0];
    } else {
      forall j | 0 <= j < i - 1 ensures !(key(s[1..][j]) == k && p(s[1..][j])) {
        assert s[1..][j] == s[j + 1];
      }
      assert s[1..][i - 1] == s[i];
      FirstMatchInKeyFilter(s[1..], key, k, p, i - 1);
      var t := FirstWhere(rest, p).value;
      if key(s[0]) == k {
        assert kf == [s[0]] + rest;
        assert kf[t + 1] == rest[t];
        forall j | 0 <= j < t + 1 ensures !p(kf[j]) {
          if j > 0 { assert kf[j] == rest[j - 1]; }
        }
      } else {
        assert kf == rest;
      }
    }
  }

  /** The first element of the sorted list that satisfies `p` is the first
      element of the input, in input order, among those satisfying `p` with
      the least key. */
  lemma SortByFirstMatch<T>(s: seq<T>, key: T -> seq<int>, p: T -> bool, i: nat)
    requires i < |s| && p(s[i])
    requires forall j :: 0 <= j < |s| && p(s[j]) ==> LexLe(key(s[i]), key(s[j]))
    requires forall j :: 0 <= j < i && p(s[j]) ==> key(s[j]) != key(s[i])
    ensures FirstWhere(SortBy(s, key), p).Some?
    ensures SortBy(s, key)[FirstWhere(SortBy(s, key), p).value] == s[i]
  {
    var r := SortBy(s, key);
    var k := key(s[i]);
    var f := SortedFirstMatchKey(s, key, p, i);
    SortByStable(s, key, k);
    FirstMatchInKeyFilter(r, key, k, p, f);
    FirstMatchInKeyFilter(s, key, k, p, i);
  }

  /** ... and that element has the least key. */
  lemma SortedFirstMatchKey<T>(s: seq<T>, key: T -> seq<int>, p: T -> bool, i: nat) returns (f: nat)
    requires i < |s| && p(s[i])
    requires forall j :: 0 <= j < |s| && p(s[j]) ==> LexLe(key(s[i]), key(s[j]))
    ensures FirstWhere(SortBy(s, key), p) == Some(f)
    ensures f < |s| && key(SortBy(s, key)[f]) == key(s[i])
  {
    var r := SortBy(s, key);
    var k := key(s[i]);
    assert s[i] in multiset(r);
    var m :| 0 <= m < |r| && r[m] == s[i];
    f := FirstWhere(r, p).value;
    assert r[f] in multiset(s);
    var j :| 0 <= j < |s| && s[j] == r[f];
    assert LexLe(k, key(r[f]));
    assert f <= m by { assert p(r[m]); }
    if f < m {
      assert LexLe(key(r[f]), key(r[m])) by { SortBySorted(s, key); }
      LexLeAntisym(k, key(r[f]));
    }
  }

  /** Picking one key distributes over concatenation. */
  lemma {:induction false} KeyFilterConcat<T>(a: seq<T>, b: seq<T>, key: T -> seq<int>, k: seq<int>)
    ensures KeyFilter(a + b, key, k) == KeyFilter(a, key, k) + KeyFilter(b, key, k)
    decreases |a|
  {
    if a == [] {
      assert a + b == b;
    } else {
      var rest := a[1..];
      assert a + b == [a[0]] + (rest + b) && a == [a[0]] + rest;
      KeyFilterCons(a[0], rest + b, key, k);
      KeyFilterCons(a[0], rest, key, k);
      KeyFilterConcat(rest, b, key, k);
    }
  }
}
