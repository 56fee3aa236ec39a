/** 1A/main6.py, pass 2 after the spans are collected: the characters of
    each (size, bold) style are counted; the body size is the size of the
    most common non-bold style (of the most common style when every style
    is bold); a style larger than the body, or of the body size and bold,
    is a heading style; the three largest heading sizes become H1, H2 and
    H3; and every span of one of those sizes becomes a heading. */
module MultiPassLevels {
  import opened Common
  import opened Sorting
  import opened MultiPass
  import opened MultiPassFonts

  /** A key of `font_styles`: `(size, bold)`. */
  datatype FontStyle = FontStyle(size: int, bold: bool)

  function StyleOf(s: FontSpan): FontStyle { FontStyle(s.size, s.bold) }

  predicate Distinct<T(==)>(s: seq<T>) {
    forall i, j :: 0 <= i < j < |s| ==> s[i] != s[j]
  }

  // ---------------------------------------------------------------------
  // font_styles

  /** The keys of `font_styles` in insertion order: each style once, in the
      order of its first span. */
  function StyleKeys(spans: seq<FontSpan>): (ks: seq<FontStyle>)
    ensures Distinct(ks)
    ensures forall i :: 0 <= i < |spans| ==> StyleOf(spans[i]) in ks
    ensures spans != [] ==> ks != []
  {
    if spans == [] then []
    else
      var init := spans[..|spans| - 1];
      var last := StyleOf(spans[|spans| - 1]);
      var ks := StyleKeys(init);
      assert forall i :: 0 <= i < |init| ==> init[i] == spans[i];
      if last in ks then ks else ks + [last]
  }

  /** `font_styles[k]`: the characters of all spans of style `k`. */
  function Chars(spans: seq<FontSpan>, k: FontStyle): nat {
    if spans == [] then 0
    else
      var last := spans[|spans| - 1];
      Chars(spans[..|spans| - 1], k) + (if StyleOf(last) == k then |last.text| else 0)
  }

  /** `font_styles`, as the loop builds it: each span adds its characters
      to its style, which starts at 0. */
  function Counts(spans: seq<FontSpan>): map<FontStyle, nat> {
    if spans == [] then map[]
    else
      var c := Counts(spans[..|spans| - 1]);
      var last := spans[|spans| - 1];
      var k := StyleOf(last);
      c[k := CountOf(c, k) + |last.text|]
  }

  /** Only the styles of the spans are keys. */
  lemma {:induction false} StyleKeysSource(spans: seq<FontSpan>, k: FontStyle)
    requires k in StyleKeys(spans)
    ensures exists i :: 0 <= i < |spans| && StyleOf(spans[i]) == k
    decreases |spans|
  {
    var init := spans[..|spans| - 1];
    if k in StyleKeys(init) {
      StyleKeysSource(init, k);
      var i :| 0 <= i < |init| && StyleOf(init[i]) == k;
      assert init[i] == spans[i];
    }
  }

  lemma CharsSnoc(spans: seq<FontSpan>, i: nat, k: FontStyle)
    requires i < |spans|
    ensures Chars(spans[..i + 1], k) == Chars(spans[..i], k) + (if StyleOf(spans[i]) == k then |spans[i].text| else 0)
  {
    assert spans[..i + 1][..i] == spans[..i];
  }

  lemma StyleKeysSnoc(spans: seq<FontSpan>, i: nat)
    requires i < |spans|
    ensures StyleKeys(spans[..i + 1]) ==
      if StyleOf(spans[i]) in StyleKeys(spans[..i]) then StyleKeys(spans[..i])
      else StyleKeys(spans[..i]) + [StyleOf(spans[i])]
  {
    assert spans[..i + 1][..i] == spans[..i];
  }

  lemma CountsSnoc(spans: seq<FontSpan>, i: nat)
    requires i < |spans|
    ensures var c := Counts(spans[..i]);
      var k := StyleOf(spans[i]);
      Counts(spans[..i + 1]) == c[k := CountOf(c, k) + |spans[i].text|]
  {
    assert spans[..i + 1][..i] == spans[..i];
  }

  /** The counting loop over the spans. */
  method CountStyles(spans: seq<FontSpan>) returns (order: seq<FontStyle>, counts: map<FontStyle, nat>)
    ensures order == StyleKeys(spans) && counts == Counts(spans)
  {
    order, counts := [], map[];
    for i := 0 to |spans|
      invariant order == StyleKeys(spans[..i]) && counts == Counts(spans[..i])
    {
      CountsSnoc(spans, i);
      StyleKeysSnoc(spans, i);
      var k := FontStyle(spans[i].size, spans[i].bold);
      CountsMeaning(spans[..i], k);
      var n := CountOf(counts, k);
      if k !in counts {
        order := order + [k];
      }
      counts := counts[k := n + |spans[i].text|];
    }
    assert spans[..|spans|] == spans;
  }

  /** The counted styles are the keys, and each count is the characters
      of that style's spans. */
  lemma {:induction false} CountsMeaning(spans: seq<FontSpan>, k: FontStyle)
    ensures k in Counts(spans) <==> k in StyleKeys(spans)
    ensures CountOf(Counts(spans), k) == Chars(spans, k)
    decreases |spans|
  {
    if spans != [] {
      var init := spans[..|spans| - 1];
      var s := spans[|spans| - 1];
      var last := StyleOf(s);
      CountsMeaning(init, k);
      var c := Counts(init);
      assert Counts(spans) == c[last := CountOf(c, last) + |s.text|];
      assert StyleKeys(spans) == if last in StyleKeys(init) then StyleKeys(init) else StyleKeys(init) + [last];
      assert Chars(spans, k) == Chars(init, k) + (if last == k then |s.text| else 0);
    }
  }

  /** The keys are exactly the styles of the spans. */
  lemma StyleKeysIff(spans: seq<FontSpan>, k: FontStyle)
    ensures k in StyleKeys(spans) <==> exists i :: 0 <= i < |spans| && StyleOf(spans[i]) == k
  {
    if k in StyleKeys(spans) { StyleKeysSource(spans, k); }
  }

  // ---------------------------------------------------------------------
  // The body size

  /** `key=lambda item: item[1], reverse=True`: by count, largest first. */
  function CountKey(counts: map<FontStyle, nat>): FontStyle -> seq<int> {
    (k: FontStyle) => [-CountOf(counts, k)]
  }

  /** `font_styles[k]`, which is 0 for a style not yet counted. */
  function CountOf(counts: map<FontStyle, nat>, k: FontStyle): int {
    if k in counts then counts[k] else 0
  }

  /** `sorted_styles` (as styles; the counts are in `counts`). */
  function SortedStyles(spans: seq<FontSpan>): seq<FontStyle> {
    SortBy(StyleKeys(spans), CountKey(Counts(spans)))
  }

  predicate Plain(k: FontStyle) { !k.bold }

  /** The size of the first non-bold style, or of the first style when
      every style is bold. */
  function BodyOf(sorted: seq<FontStyle>): int
    requires sorted != []
  {
    var first := FirstWhere(sorted, Plain);
    if first.Some? then sorted[first.value].size else sorted[0].size
  }

  /** `body_size`; the spans are never empty here, so the 12.0 fallback is
      never taken. */
  function BodySize(spans: seq<FontSpan>): int
    requires spans != []
  {
    BodyOf(SortedStyles(spans))
  }

  /** The loop that looks for the first non-bold style. */
  method ChooseBodySize(sorted: seq<FontStyle>) returns (body: int)
    requires sorted != []
    ensures body == BodyOf(sorted)
  {
    body := sorted[0].size;
    for i := 0 to |sorted|
      invariant body == sorted[0].size
      invariant forall j :: 0 <= j < i ==> !Plain(sorted[j])
    {
      if Plain(sorted[i]) {
        body := sorted[i].size;
        assert FirstWhere(sorted, Plain) == Some(i);
        return;
      }
    }
  }

  predicate AnyStyle(k: FontStyle) { true }

  /** The sort key of a style is its character count, negated. */
  lemma KeyOfStyle(spans: seq<FontSpan>, k: FontStyle)
    ensures CountKey(Counts(spans))(k) == [-(Chars(spans, k) as int)]
  {
    CountsMeaning(spans, k);
  }

  /** Sorting the keys by count finds, among the styles satisfying `p`,
      the first in key order of those with the most characters. */
  lemma SortedFindsFirstCommonest(spans: seq<FontSpan>, p: FontStyle -> bool, i: nat)
    requires i < |StyleKeys(spans)| && p(StyleKeys(spans)[i])
    requires forall j :: 0 <= j < |StyleKeys(spans)| && p(StyleKeys(spans)[j]) ==>
      Chars(spans, StyleKeys(spans)[j]) <= Chars(spans, StyleKeys(spans)[i])
    requires forall j :: 0 <= j < i && p(StyleKeys(spans)[j]) ==>
      Chars(spans, StyleKeys(spans)[j]) < Chars(spans, StyleKeys(spans)[i])
    ensures FirstWhere(SortedStyles(spans), p).Some?
    ensures SortedStyles(spans)[FirstWhere(SortedStyles(spans), p).value] == StyleKeys(spans)[i]
  {
    var keys := StyleKeys(spans);
    var key := CountKey(Counts(spans));
    KeyOfStyle(spans, keys[i]);
    forall j | 0 <= j < |keys| && p(keys[j]) ensures LexLe(key(keys[i]), key(keys[j])) {
      KeyOfStyle(spans, keys[j]);
      LexLeSingle(-(Chars(spans, keys[i]) as int), -(Chars(spans, keys[j]) as int));
    }
    forall j | 0 <= j < i && p(keys[j]) ensures key(keys[j]) != key(keys[i]) {
      KeyOfStyle(spans, keys[j]);
    }
    SortByFirstMatch(keys, key, p, i);
  }

  /** The body size is the size of the most common non-bold style; among
      equally common ones, of the first to appear. */
  lemma BodyIsCommonestPlain(spans: seq<FontSpan>, i: nat)
    requires i < |StyleKeys(spans)| && !StyleKeys(spans)[i].bold
    requires forall j :: 0 <= j < |StyleKeys(spans)| && !StyleKeys(spans)[j].bold ==>
      Chars(spans, StyleKeys(spans)[j]) <= Chars(spans, StyleKeys(spans)[i])
    requires forall j :: 0 <= j < i && !StyleKeys(spans)[j].bold ==>
      Chars(spans, StyleKeys(spans)[j]) < Chars(spans, StyleKeys(spans)[i])
    ensures spans != [] && BodySize(spans) == StyleKeys(spans)[i].size
  {
    SortedFindsFirstCommonest(spans, Plain, i);
  }

  /** When every span is bold, the body size is the size of the most
      common style; among equally common ones, of the first to appear. */
  lemma BodyIsCommonestWhenAllBold(spans: seq<FontSpan>, i: nat)
    requires forall j :: 0 <= j < |spans| ==> spans[j].bold
    requires i < |StyleKeys(spans)|
    requires forall j :: 0 <= j < |StyleKeys(spans)| ==> Chars(spans, StyleKeys(spans)[j]) <= Chars(spans, StyleKeys(spans)[i])
    requires forall j :: 0 <= j < i ==> Chars(spans, StyleKeys(spans)[j]) < Chars(spans, StyleKeys(spans)[i])
    ensures spans != [] && BodySize(spans) == StyleKeys(spans)[i].size
  {
    NoPlainStyle(spans);
    SortedFindsFirstCommonest(spans, AnyStyle, i);
    assert FirstWhere(SortedStyles(spans), AnyStyle) == Some(0);
  }

  /** The sorted styles are the styles of the spans. */
  lemma SortedStylesMembers(spans: seq<FontSpan>, k: FontStyle)
    ensures k in SortedStyles(spans) <==> k in StyleKeys(spans)
  {
    var sorted := SortedStyles(spans);
    assert multiset(sorted) == multiset(StyleKeys(spans));
    assert k in sorted <==> k in multiset(sorted);
  }

  /** With every span bold, no style is plain. */
  lemma NoPlainStyle(spans: seq<FontSpan>)
    requires forall i :: 0 <= i < |spans| ==> spans[i].bold
    ensures FirstWhere(SortedStyles(spans), Plain) == None
  {
    var sorted := SortedStyles(spans);
    forall j | 0 <= j < |sorted| ensures !Plain(sorted[j]) {
      SortedStylesMembers(spans, sorted[j]);
      StyleKeysSource(spans, sorted[j]);
    }
  }

  // ---------------------------------------------------------------------
  // Heading sizes and levels

  /** A style larger than the body, or of the body size and bold. */
  predicate HeadingStyle(k: FontStyle, body: int) {
    k.size > body || (k.size == body && k.bold)
  }

  function HeadingStyleOf(body: int): FontStyle -> bool {
    (k: FontStyle) => HeadingStyle(k, body)
  }

  /** `potential_heading_styles`, in key order (the sort that follows
      changes no size taken from it). */
  function HeadingStyles(keys: seq<FontStyle>, body: int): seq<FontStyle> {
    Filter(keys, HeadingStyleOf(body))
  }

  /** The set of heading sizes. */
  function HeadingSizes(keys: seq<FontStyle>, body: int): set<int> {
    set k | k in keys && HeadingStyle(k, body) :: k.size
  }

  function SizeOf(k: FontStyle): int { k.size }

  /** `set(...)` of a list of sizes, kept as a list: each size once, in the
      order of its first appearance. */
  function Unique(xs: seq<int>): (r: seq<int>)
    ensures Distinct(r)
    ensures forall x :: x in r <==> x in xs
  {
    if xs == [] then []
    else
      var u := Unique(xs[..|xs| - 1]);
      assert forall x :: x in xs <==> x in xs[..|xs| - 1] || x == xs[|xs| - 1];
      if xs[|xs| - 1] in u then u else u + [xs[|xs| - 1]]
  }

  /** `reverse=True` on a number: the negated number is the key. */
  function Descending(x: int): seq<int> { [-x] }

  /** `distinct_sizes`: the heading sizes, largest first. */
  function DistinctSizes(keys: seq<FontStyle>, body: int): seq<int> {
    SortBy(Unique(MapSeq(HeadingStyles(keys, body), SizeOf)), Descending)
  }

  predicate StrictlyDecreasing(ds: seq<int>) {
    forall i, j :: 0 <= i < j < |ds| ==> ds[i] > ds[j]
  }

  /** A list without repeats has every element at most once. */
  lemma {:induction false} DistinctCounts<T>(s: seq<T>, v: T)
    requires Distinct(s)
    ensures multiset(s)[v] <= 1
    decreases |s|
  {
    if s != [] {
      var init := s[..|s| - 1];
      assert s == init + [s[|s| - 1]];
      assert Distinct(init) by {
        forall i, j | 0 <= i < j < |init| ensures init[i] != init[j] { assert init[i] == s[i] && init[j] == s[j]; }
      }
      DistinctCounts(init, v);
      if v == s[|s| - 1] {
        assert v !in init by {
          forall i | 0 <= i < |init| ensures init[i] != v { assert init[i] == s[i]; }
        }
      }
    }
  }

  /** A list with every element at most once has no repeats. */
  lemma {:induction false} CountsDistinct<T>(s: seq<T>)
    requires forall v :: multiset(s)[v] <= 1
    ensures Distinct(s)
    decreases |s|
  {
    if s != [] {
      var init, last := s[..|s| - 1], s[|s| - 1];
      assert s == init + [last];
      assert forall v :: multiset(init)[v] <= multiset(s)[v];
      CountsDistinct(init);
      assert multiset(s)[last] == multiset(init)[last] + 1;
      assert last !in multiset(init);
      forall i, j | 0 <= i < j < |s| ensures s[i] != s[j] {
        if j < |init| { assert s[i] == init[i] && s[j] == init[j]; }
        else { assert s[i] == init[i]; }
      }
    }
  }

  /** A reordering of a list without repeats has none. */
  lemma PermutationDistinct<T>(u: seq<T>, r: seq<T>)
    requires Distinct(u) && multiset(r) == multiset(u)
    ensures Distinct(r)
  {
    forall v ensures multiset(r)[v] <= 1 { DistinctCounts(u, v); }
    CountsDistinct(r);
  }

  /** Sorting a list without repeats, largest first, lists it strictly
      decreasing. */
  lemma SortedDescending(u: seq<int>)
    requires Distinct(u)
    ensures StrictlyDecreasing(SortBy(u, Descending))
  {
    var ds := SortBy(u, Descending);
    PermutationDistinct(u, ds);
    SortBySorted(u, Descending);
    DescendingDistinct(ds);
  }

  /** Largest first without repeats is strictly decreasing. */
  lemma DescendingDistinct(ds: seq<int>)
    requires SortedBy(ds, Descending) && Distinct(ds)
    ensures StrictlyDecreasing(ds)
  {
    forall i, j | 0 <= i < j < |ds| ensures ds[i] > ds[j] {
      assert LexLe(Descending(ds[i]), Descending(ds[j]));
      LexLeSingle(-ds[i], -ds[j]);
    }
  }

  /** The sizes are listed largest first, each once. */
  lemma DistinctSizesDecrease(keys: seq<FontStyle>, body: int)
    ensures StrictlyDecreasing(DistinctSizes(keys, body))
  {
    SortedDescending(Unique(MapSeq(HeadingStyles(keys, body), SizeOf)));
  }

  /** The sizes of a list of styles. */
  lemma InSizes(styles: seq<FontStyle>, x: int)
    ensures x in MapSeq(styles, SizeOf) <==> exists k :: k in styles && k.size == x
  {
    var sizes := MapSeq(styles, SizeOf);
    if x in sizes {
      InMapSeq(styles, SizeOf, sizes, x);
    }
    if exists k :: k in styles && k.size == x {
      var k :| k in styles && k.size == x;
      var n :| 0 <= n < |styles| && styles[n] == k;
      assert sizes[n] == x;
    }
  }

  /** The listed sizes are exactly the heading sizes. */
  lemma DistinctSizesMembers(keys: seq<FontStyle>, body: int, x: int)
    ensures x in DistinctSizes(keys, body) <==> x in HeadingSizes(keys, body)
  {
    var styles := HeadingStyles(keys, body);
    var u := Unique(MapSeq(styles, SizeOf));
    var ds := SortBy(u, Descending);
    assert x in ds <==> x in u by {
      assert x in ds <==> x in multiset(ds);
      assert x in u <==> x in multiset(u);
    }
    InSizes(styles, x);
    if x in HeadingSizes(keys, body) {
      var k :| k in keys && HeadingStyle(k, body) && k.size == x;
      assert k in styles;
    }
  }

  /** `size_to_level`: the three largest heading sizes are H1, H2 and H3. */
  function SizeLevel(ds: seq<int>, x: int): (l: Option<nat>)
    ensures l.Some? ==> 1 <= l.value <= 3 && l.value <= |ds| && ds[l.value - 1] == x
  {
    if |ds| > 0 && ds[0] == x then Some(1)
    else if |ds| > 1 && ds[1] == x then Some(2)
    else if |ds| > 2 && ds[2] == x then Some(3)
    else None
  }

  /** The number of heading sizes larger than `x`. */
  function Rank(sizes: set<int>, x: int): nat {
    |set y | y in sizes && y > x|
  }

  /** A list without repeats has as many elements as its set. */
  lemma {:induction false} DistinctCard(s: seq<int>)
    requires Distinct(s)
    ensures |set y | y in s| == |s|
    decreases |s|
  {
    if s != [] {
      var init, last := s[..|s| - 1], s[|s| - 1];
      assert Distinct(init) by {
        forall i, j | 0 <= i < j < |init| ensures init[i] != init[j] { assert init[i] == s[i] && init[j] == s[j]; }
      }
      DistinctCard(init);
      assert last !in init by {
        forall i | 0 <= i < |init| ensures init[i] != last { assert init[i] == s[i]; }
      }
      assert (set y | y in s) == (set y | y in init) + {last};
    }
  }

  /** In a strictly decreasing list the sizes larger than an element are
      those before it. */
  lemma RankIsIndex(ds: seq<int>, i: nat)
    requires StrictlyDecreasing(ds) && i < |ds|
    ensures Rank((set y | y in ds), ds[i]) == i
  {
    var before := ds[..i];
    var all := set y | y in ds;
    assert (set y | y in all && y > ds[i]) == (set y | y in before) by {
      forall y | y in ds && y > ds[i] ensures y in before {
        var j :| 0 <= j < |ds| && ds[j] == y;
        assert before[j] == y;
      }
    }
    assert Distinct(before) by {
      forall a, b | 0 <= a < b < |before| ensures before[a] != before[b] { assert ds[a] > ds[b]; }
    }
    DistinctCard(before);
  }

  /** Over a strictly decreasing list, a listed size has level one more
      than the number of larger sizes, while that number is below three. */
  lemma SizeLevelIsRank(ds: seq<int>, x: int)
    requires StrictlyDecreasing(ds) && x in ds
    ensures SizeLevel(ds, x) == if Rank((set y | y in ds), x) < 3 then Some(Rank((set y | y in ds), x) + 1) else None
  {
    var i :| 0 <= i < |ds| && ds[i] == x;
    RankIsIndex(ds, i);
  }

  /** `size_to_level` over the heading sizes of the styles. */
  function HeadingLevel(keys: seq<FontStyle>, body: int, x: int): Option<nat> {
    SizeLevel(DistinctSizes(keys, body), x)
  }

  /** A size has a level exactly when it is a heading size with fewer than
      three larger heading sizes, and that level is one more than their
      number: H1 for the largest, then H2 and H3. */
  lemma HeadingLevelIsRank(keys: seq<FontStyle>, body: int, x: int)
    ensures var hs := HeadingSizes(keys, body);
      HeadingLevel(keys, body, x) ==
        if x in hs && Rank(hs, x) < 3 then Some(Rank(hs, x) + 1) else None
  {
    var ds := DistinctSizes(keys, body);
    var hs := HeadingSizes(keys, body);
    DistinctSizesDecrease(keys, body);
    DistinctSizesMembers(keys, body, x);
    assert (set y | y in ds) == hs by {
      forall y ensures y in ds <==> y in hs { DistinctSizesMembers(keys, body, y); }
    }
    if x in ds {
      SizeLevelIsRank(ds, x);
    }
  }

  /** Larger heading sizes get smaller level numbers. */
  lemma HeadingLevelOrder(keys: seq<FontStyle>, body: int, x: int, y: int)
    requires HeadingLevel(keys, body, x).Some? && HeadingLevel(keys, body, y).Some?
    ensures x > y <==> HeadingLevel(keys, body, x).value < HeadingLevel(keys, body, y).value
  {
    DistinctSizesDecrease(keys, body);
  }

  // ---------------------------------------------------------------------
  // The font pass

  /** The heading a span gives: every span of a levelled size, whatever
      its weight. */
  function FontHeadingIn(s: FontSpan, keys: seq<FontStyle>, body: int): (hs: seq<Heading>)
    ensures hs != [] <==> HeadingLevel(keys, body, s.size).Some?
    ensures hs != [] ==> hs == [Heading(HeadingLevel(keys, body, s.size).value, s.text, s.page, false)]
  {
    var l := HeadingLevel(keys, body, s.size);
    if l.Some? then [Heading(l.value, s.text, s.page, false)] else []
  }

  function FontHeadingOf(keys: seq<FontStyle>, body: int): FontSpan -> seq<Heading> {
    (s: FontSpan) => FontHeadingIn(s, keys, body)
  }

  /** The headings of the font pass; none when no span was collected. */
  function FontPass(spans: seq<FontSpan>): seq<Heading> {
    if spans == [] then []
    else ConcatMap(spans, FontHeadingOf(StyleKeys(spans), BodySize(spans)))
  }

  /** The loop over the spans that emits the font headings. */
  method EmitFontHeadings(spans: seq<FontSpan>, keys: seq<FontStyle>, body: int) returns (hs: seq<Heading>)
    ensures hs == ConcatMap(spans, FontHeadingOf(keys, body))
  {
    var ds := DistinctSizes(keys, body);
    hs := [];
    for i := 0 to |spans|
      invariant hs == ConcatMap(spans[..i], FontHeadingOf(keys, body))
    {
      ConcatMapSnoc(spans, i, FontHeadingOf(keys, body));
      var level := SizeLevel(ds, spans[i].size);
      if level.Some? {
        hs := hs + [Heading(level.value, spans[i].text, spans[i].page, false)];
      }
    }
    assert spans[..|spans|] == spans;
  }

  /** Pass 2 after the spans are collected: count the styles, choose the
      body size, level the heading sizes and emit the font headings. */
  method FontHeadings(spans: seq<FontSpan>) returns (hs: seq<Heading>)
    ensures hs == FontPass(spans)
  {
    if spans == [] {
      return [];
    }
    var keys, counts := CountStyles(spans);
    var sorted := SortBy(keys, CountKey(counts));
    var body := ChooseBodySize(sorted);
    hs := EmitFontHeadings(spans, keys, body);
  }

  /** Every font heading comes from a span of a levelled size, with that
      span's text and page, and every such span gives one. */
  lemma FontPassSource(spans: seq<FontSpan>, h: Heading)
    requires spans != []
    ensures h in FontPass(spans) <==>
      exists i :: 0 <= i < |spans| && HeadingLevel(StyleKeys(spans), BodySize(spans), spans[i].size) == Some(h.level) &&
        h == Heading(h.level, spans[i].text, spans[i].page, false)
  {
    EmittedSource(spans, StyleKeys(spans), BodySize(spans), h);
  }

  /** The emitted headings, for any style keys and body size. */
  lemma EmittedSource(spans: seq<FontSpan>, keys: seq<FontStyle>, body: int, h: Heading)
    ensures h in ConcatMap(spans, FontHeadingOf(keys, body)) <==>
      exists i :: 0 <= i < |spans| && HeadingLevel(keys, body, spans[i].size) == Some(h.level) &&
        h == Heading(h.level, spans[i].text, spans[i].page, false)
  {
    var f := FontHeadingOf(keys, body);
    InConcatMap(spans, f, h);
    forall i | 0 <= i < |spans|
      ensures h in f(spans[i]) <==>
        HeadingLevel(keys, body, spans[i].size) == Some(h.level) && h == Heading(h.level, spans[i].text, spans[i].page, false)
    {
    }
  }

  /** Font headings are H1 to H3 and not numbered. */
  lemma FontPassShape(spans: seq<FontSpan>, h: Heading)
    requires h in FontPass(spans)
    ensures 1 <= h.level <= 3 && !h.numbered
  {
    var f := FontHeadingOf(StyleKeys(spans), BodySize(spans));
    InConcatMap(spans, f, h);
  }
}
