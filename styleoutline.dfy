// 1A/main2.py: PDFOutlineExtractor. Every non-blank span is cleaned; the
// spans outside the top and bottom tenth of the page that are large or
// bold and do not look like list items are the potential headings. They
// are grouped by style (rounded size, bold), the styles ranked by size and
// then boldness, and the first style becomes H1, the second H2 and every
// other H3. The outline is sorted by page and vertical position.

module StyleOutline {
  import opened Common
  import opened Text
  import opened Sorting

  // ---------------------------------------------------------------------
  // preprocess_text

  /** `re.sub(r'\s+', ' ', text).strip()`: squeeze, then strip. The result
      is the same as stripping first. */
  function Preprocess(text: string): (r: string)
    ensures r == CollapseWhitespace(text) && Collapsed(r)
  {
    StripSqueezeCommute(text);
    Strip(Squeeze(text))
  }

  /** Cleaning a cleaned text changes nothing. */
  lemma PreprocessIdempotent(text: string)
    ensures Preprocess(Preprocess(text)) == Preprocess(text)
  {
    CollapseIdempotent(text);
  }

  // ---------------------------------------------------------------------
  // is_potential_heading

  /** The bullet characters of the list-item pattern. */
  predicate IsBullet(c: char) {
    c == '•' || c == '●' || c == '▪' || c == '▫' ||
    c == '■' || c == '◆' || c == '❖'
  }

  predicate SpaceAt(t: string, i: nat) { i < |t| && IsSpace(t[i]) }

  /** `re.match(r'^\s*([•●▪▫■◆❖]|\*|-|\d+\.|\w\))\s+', t)`. No alternative
      starts with a space and a digit run cannot end on a dot, so neither
      `\s*` nor `\d+` ever gives characters back: each alternative has one
      possible end, and `\s+` needs one space there. */
  predicate ListItem(t: string) {
    var i := RunFrom(t, 0, IsSpace);
    i < |t| &&
    (((IsBullet(t[i]) || t[i] == '*' || t[i] == '-') && SpaceAt(t, i + 1)) ||
     (var d := RunFrom(t, i, IsDigit); d >= 1 && i + d < |t| && t[i + d] == '.' && SpaceAt(t, i + d + 1)) ||
     (i + 1 < |t| && IsWordChar(t[i]) && t[i + 1] == ')' && SpaceAt(t, i + 2)))
  }

  /** `"bold" in span["font"].lower() or (span["flags"] & 2**4)`, as a truth
      value. */
  predicate BoldSpan(s: Span) { Contains(Lower(s.font), "bold") || BoldFlag(s.flags) }

  /** `bbox[1] < page_height * 0.1 or bbox[3] > page_height * 0.9`, on
      coordinates in hundredths of a point. */
  predicate InMargin(s: Span, height: int) { 10 * s.y0 < height || 10 * s.y1 > 9 * height }

  /** is_potential_heading; `is_all_caps` and `ends_with_colon` are computed
      there but never read, so they are not part of the result. */
  function IsPotentialHeading(s: Span, height: int): (r: bool)
    ensures r <==> !ListItem(s.text) && WordCount(s.text) <= 15 && !InMargin(s, height) &&
                   (s.size > 1350 || BoldSpan(s))
  {
    if ListItem(s.text) then false
    else if WordCount(s.text) > 15 then false
    else if InMargin(s, height) then false
    else
      var isLarge := s.size > 1350;
      var isBold := BoldSpan(s);
      if !(isLarge || isBold) then false else true
  }

  /** Becoming larger or bold never turns a potential heading into a
      non-heading. */
  lemma PotentialMonotone(s: Span, height: int, size: int, flags: nat)
    requires IsPotentialHeading(s, height) && size >= s.size && (BoldSpan(s) ==> BoldFlag(flags))
    ensures IsPotentialHeading(s.(size := size, flags := flags), height)
  {
  }

  /** A bulleted or numbered item is never a heading, whatever its style. */
  lemma NumberedItemRejected(rest: string, s: Span, height: int)
    requires s.text == "1. " + rest
    ensures !IsPotentialHeading(s, height)
  {
    var t := s.text;
    assert t[0] == '1' && t[1] == '.' && t[2] == ' ';
    assert RunFrom(t, 0, IsSpace) == 0;
    RunFromExact(t, 0, 1, IsDigit);
  }

  // ---------------------------------------------------------------------
  // Styles

  /** Python's round() on a size in hundredths: the nearest whole point,
      halves going to the even neighbour. */
  function RoundHalfEven(size: int): (p: int)
    ensures 100 * p - 50 <= size <= 100 * p + 50
    ensures (size == 100 * p + 50 || size == 100 * p - 50) ==> p % 2 == 0
  {
    var q, m := size / 100, size % 100;
    if m < 50 then q else if m > 50 then q + 1 else if q % 2 == 0 then q else q + 1
  }

  /** `(round(size), bold)`; `bold` holds the value the bold expression
      takes in the key. */
  datatype Style = Style(points: int, bold: int)

  /** The key as written: `"bold" in font.lower()` gives True (1); else the
      `or` yields `flags & 16`, which is 16 or 0. */
  function StyleAsWritten(s: Span): (st: Style)
    ensures st.points == RoundHalfEven(s.size)
    ensures st.bold != 0 <==> BoldSpan(s)
  {
    Style(RoundHalfEven(s.size), if Contains(Lower(s.font), "bold") then 1 else if BoldFlag(s.flags) then 16 else 0)
  }

  /** The key with boldness as a truth value: 1 for bold, 0 otherwise. */
  function StyleOf(s: Span): (st: Style)
    ensures st.points == RoundHalfEven(s.size)
    ensures st.bold == 1 <==> BoldSpan(s)
    ensures st.bold == 0 || st.bold == 1
  {
    Style(RoundHalfEven(s.size), if BoldSpan(s) then 1 else 0)
  }

  /** `key=lambda k: (-k[0], -k[1])`: larger sizes first, then larger bold
      values. */
  function StyleRank(st: Style): seq<int> { [-st.points, -st.bold] }

  /** Different styles never tie. */
  lemma StyleRankInjective(a: Style, b: Style)
    requires StyleRank(a) == StyleRank(b)
    ensures a == b
  {
    assert StyleRank(a)[0] == StyleRank(b)[0] && StyleRank(a)[1] == StyleRank(b)[1];
  }

  // ---------------------------------------------------------------------
  // The font_styles dict: one list per style, in order of first appearance

  /** The distinct styles of `hs`, in order of first appearance (the keys
      of the defaultdict). */
  function StylesOf(hs: seq<Span>, style: Span -> Style): seq<Style> {
    if hs == [] then []
    else
      var ks := StylesOf(hs[..|hs| - 1], style);
      if style(hs[|hs| - 1]) in ks then ks else ks + [style(hs[|hs| - 1])]
  }

  /** The spans of `hs` with style `k`, in input order. */
  function Members(hs: seq<Span>, style: Span -> Style, k: Style): seq<Span> {
    if hs == [] then []
    else Members(hs[..|hs| - 1], style, k) + (if style(hs[|hs| - 1]) == k then [hs[|hs| - 1]] else [])
  }

  lemma StylesSnoc(hs: seq<Span>, i: nat, style: Span -> Style)
    requires i < |hs|
    ensures StylesOf(hs[..i + 1], style) ==
      if style(hs[i]) in StylesOf(hs[..i], style) then StylesOf(hs[..i], style)
      else StylesOf(hs[..i], style) + [style(hs[i])]
    ensures forall k ::
      Members(hs[..i + 1], style, k) == Members(hs[..i], style, k) + (if style(hs[i]) == k then [hs[i]] else [])
  {
    assert hs[..i + 1][..i] == hs[..i];
  }

  /** The styles are distinct and are exactly the styles of the spans. */
  lemma {:induction false} StylesDistinct(hs: seq<Span>, style: Span -> Style)
    ensures forall i, j :: 0 <= i < j < |StylesOf(hs, style)| ==> StylesOf(hs, style)[i] != StylesOf(hs, style)[j]
    ensures forall k :: k in StylesOf(hs, style) <==> exists n :: 0 <= n < |hs| && style(hs[n]) == k
    decreases |hs|
  {
    if hs != [] {
      var init := hs[..|hs| - 1];
      StylesDistinct(init, style);
      forall k | (exists n :: 0 <= n < |hs| && style(hs[n]) == k) ensures k in StylesOf(hs, style) {
        var n :| 0 <= n < |hs| && style(hs[n]) == k;
        if n < |init| { assert init[n] == hs[n]; }
      }
      forall k | k in StylesOf(hs, style) ensures exists n :: 0 <= n < |hs| && style(hs[n]) == k {
        if k in StylesOf(init, style) {
          var n :| 0 <= n < |init| && style(init[n]) == k;
          assert hs[n] == init[n];
        } else {
          assert style(hs[|hs| - 1]) == k;
        }
      }
    }
  }

  /** A style that no span has has no members. */
  lemma {:induction false} MembersAbsent(hs: seq<Span>, style: Span -> Style, k: Style)
    requires k !in StylesOf(hs, style)
    ensures Members(hs, style, k) == []
    decreases |hs|
  {
    if hs != [] {
      MembersAbsent(hs[..|hs| - 1], style, k);
    }
  }

  /** Every member has the style of its group and comes from the input. */
  lemma {:induction false} MembersOfStyle(hs: seq<Span>, style: Span -> Style, k: Style)
    ensures forall m :: m in Members(hs, style, k) ==> style(m) == k && m in hs
    decreases |hs|
  {
    if hs != [] {
      var init := hs[..|hs| - 1];
      MembersOfStyle(init, style, k);
      forall m | m in Members(hs, style, k) ensures style(m) == k && m in hs {
        if m in Members(init, style, k) {
          var n :| 0 <= n < |init| && init[n] == m;
          assert hs[n] == m;
        }
      }
    }
  }

  /** A style found among the spans has at least one member. */
  lemma {:induction false} MembersPresent(hs: seq<Span>, style: Span -> Style, k: Style)
    requires k in StylesOf(hs, style)
    ensures Members(hs, style, k) != []
    decreases |hs|
  {
    var init := hs[..|hs| - 1];
    if k in StylesOf(init, style) {
      MembersPresent(init, style, k);
    }
  }

  // ---------------------------------------------------------------------
  // Levels: the first style is H1, the second H2, every other one H3

  /** The styles ranked, largest first. */
  function RankedStyles(hs: seq<Span>, style: Span -> Style): seq<Style> {
    SortBy(StylesOf(hs, style), StyleRank)
  }

  /** `level_map[style]` */
  function LevelIn(ranked: seq<Style>, st: Style): (level: nat)
    ensures 1 <= level <= 3
  {
    if |ranked| > 0 && ranked[0] == st then 1
    else if |ranked| > 1 && ranked[1] == st then 2
    else 3
  }

  /** The level_map loop: H1, H2, then H3 for the rest. */
  method LevelMap(ranked: seq<Style>) returns (levels: map<Style, nat>)
    ensures forall k :: k in levels <==> k in ranked
    ensures forall k :: k in levels ==> levels[k] == LevelIn(ranked, k)
    requires forall i, j :: 0 <= i < j < |ranked| ==> ranked[i] != ranked[j]
  {
    levels := map[];
    if |ranked| > 0 { levels := levels[ranked[0] := 1]; }
    if |ranked| > 1 { levels := levels[ranked[1] := 2]; }
    if |ranked| > 2 {
      for i := 2 to |ranked|
        invariant forall k :: k in levels <==> k in ranked[..i]
        invariant forall k :: k in levels ==> levels[k] == LevelIn(ranked, k)
      {
        levels := levels[ranked[i] := 3];
      }
      assert ranked[..|ranked|] == ranked;
    } else {
      assert forall k :: k in ranked ==> k == ranked[0] || k == ranked[1];
    }
  }

  /** The ranked styles are the distinct styles, each once. */
  lemma RankedDistinct(hs: seq<Span>, style: Span -> Style)
    ensures forall i, j :: 0 <= i < j < |RankedStyles(hs, style)| ==> RankedStyles(hs, style)[i] != RankedStyles(hs, style)[j]
    ensures forall k :: k in RankedStyles(hs, style) <==> k in StylesOf(hs, style)
  {
    var ks := StylesOf(hs, style);
    var r := RankedStyles(hs, style);
    StylesDistinct(hs, style);
    forall k ensures k in r <==> k in ks {
      assert k in r <==> k in multiset(r);
      assert k in ks <==> k in multiset(ks);
    }
    forall i, j | 0 <= i < j < |r| ensures r[i] != r[j] {
      if r[i] == r[j] {
        TwiceInMultiset(r, i, j);
        var p :| 0 <= p < |ks| && ks[p] == r[i];
        OnceInMultiset(ks, p);
        assert false;
      }
    }
  }

  lemma TwiceInMultiset(s: seq<Style>, i: nat, j: nat)
    requires i < j < |s| && s[i] == s[j]
    ensures multiset(s)[s[i]] >= 2
  {
    assert s == s[..j] + s[j..];
    assert s[i] == s[..j][i];
    assert s[j] == s[j..][0];
  }

  lemma OnceInMultiset(s: seq<Style>, p: nat)
    requires p < |s| && forall i, j :: 0 <= i < j < |s| ==> s[i] != s[j]
    ensures multiset(s)[s[p]] == 1
  {
    var x := s[p];
    assert s == s[..p] + [x] + s[p + 1..];
    assert x !in s[..p];
    var tail := s[p + 1..];
    assert x !in tail by {
      forall q | 0 <= q < |tail| ensures tail[q] != x {
        assert tail[q] == s[p + 1 + q];
      }
    }
  }

  /** A style ranked before another never gets a deeper level. */
  lemma LargerStyleNotDeeper(hs: seq<Span>, style: Span -> Style, a: Style, b: Style)
    requires a in StylesOf(hs, style) && b in StylesOf(hs, style)
    requires LexLe(StyleRank(a), StyleRank(b))
    ensures LevelIn(RankedStyles(hs, style), a) <= LevelIn(RankedStyles(hs, style), b)
  {
    var r := RankedStyles(hs, style);
    RankedDistinct(hs, style);
    SortBySorted(StylesOf(hs, style), StyleRank);
    var i :| 0 <= i < |r| && r[i] == a;
    var j :| 0 <= j < |r| && r[j] == b;
    if j < i {
      assert LexLe(StyleRank(b), StyleRank(a));
      LexLeAntisym(StyleRank(a), StyleRank(b));
      StyleRankInjective(a, b);
    }
  }

  // ---------------------------------------------------------------------
  // The outline: every style's headings in turn, then sorted by position

  /** `{"level": level, "text": h["text"], "page": h["page"]}` */
  function EntryOf(ranked: seq<Style>, style: Span -> Style): Span -> Entry {
    (h: Span) => Entry(LevelIn(ranked, style(h)), h.text, h.page)
  }

  /** The outline loop: for each style in turn, its headings in order. */
  function Emitted(hs: seq<Span>, style: Span -> Style, ks: seq<Style>, toEntry: Span -> Entry): seq<Entry> {
    if ks == [] then []
    else Emitted(hs, style, ks[..|ks| - 1], toEntry) + MapSeq(Members(hs, style, ks[|ks| - 1]), toEntry)
  }

  lemma EmittedSnoc(hs: seq<Span>, style: Span -> Style, ks: seq<Style>, i: nat, toEntry: Span -> Entry)
    requires i < |ks|
    ensures Emitted(hs, style, ks[..i + 1], toEntry) == Emitted(hs, style, ks[..i], toEntry) + MapSeq(Members(hs, style, ks[i]), toEntry)
  {
    assert ks[..i + 1][..i] == ks[..i];
  }

  /** One more heading joins the members of its own style only. */
  lemma MembersAppend(hs: seq<Span>, x: Span, style: Span -> Style, k: Style)
    ensures Members(hs + [x], style, k) == Members(hs, style, k) + (if style(x) == k then [x] else [])
  {
    assert (hs + [x])[..|hs|] == hs;
  }

  /** The entries of a group that may have gained one heading. */
  lemma MapSeqMaybe(m: seq<Span>, x: Span, add: bool, toEntry: Span -> Entry)
    ensures MapSeq(m + (if add then [x] else []), toEntry) == MapSeq(m, toEntry) + (if add then [toEntry(x)] else [])
  {
    if add { MapSeqAppend(m, x, toEntry); } else { assert m + [] == m; }
  }

  lemma MultisetStep(a: seq<Entry>, b: seq<Entry>, c: seq<Entry>, d: seq<Entry>, y: Entry, inA: bool, inC: bool)
    requires multiset(a) == multiset(b) + (if inA then multiset{y} else multiset{})
    requires c == d + (if inC then [y] else [])
    requires !(inA && inC)
    ensures multiset(a + c) == multiset(b + d) + (if inA || inC then multiset{y} else multiset{})
  {
  }

  predicate Distinct(ks: seq<Style>) {
    forall i, j :: 0 <= i < j < |ks| ==> ks[i] != ks[j]
  }

  lemma DistinctLast(ks: seq<Style>)
    requires ks != [] && Distinct(ks)
    ensures Distinct(ks[..|ks| - 1]) && ks[|ks| - 1] !in ks[..|ks| - 1]
    ensures forall y :: y in ks <==> y in ks[..|ks| - 1] || y == ks[|ks| - 1]
  {
    var init := ks[..|ks| - 1];
    assert ks == init + [ks[|ks| - 1]];
    forall i | 0 <= i < |init| ensures init[i] != ks[|ks| - 1] {
      assert init[i] == ks[i];
    }
  }

  lemma StylesAreDistinct(hs: seq<Span>, style: Span -> Style)
    ensures Distinct(StylesOf(hs, style))
  {
    StylesDistinct(hs, style);
  }

  /** One more heading adds its entry once, when its style is listed once. */
  lemma {:induction false} EmittedAppend(hs: seq<Span>, x: Span, style: Span -> Style, ks: seq<Style>, toEntry: Span -> Entry)
    requires Distinct(ks)
    ensures multiset(Emitted(hs + [x], style, ks, toEntry)) ==
      multiset(Emitted(hs, style, ks, toEntry)) + (if style(x) in ks then multiset{toEntry(x)} else multiset{})
    decreases |ks|
  {
    if ks != [] {
      var init, k := ks[..|ks| - 1], ks[|ks| - 1];
      DistinctLast(ks);
      EmittedAppend(hs, x, style, init, toEntry);
      var m := Members(hs, style, k);
      MembersAppend(hs, x, style, k);
      MapSeqMaybe(m, x, style(x) == k, toEntry);
      MultisetStep(Emitted(hs + [x], style, init, toEntry), Emitted(hs, style, init, toEntry),
        MapSeq(Members(hs + [x], style, k), toEntry), MapSeq(m, toEntry), toEntry(x), style(x) in init, style(x) == k);
    }
  }

  /** Every heading is emitted exactly once: the outline loop yields a
      permutation of the headings' entries. */
  lemma {:induction false} EmittedPermutation(hs: seq<Span>, style: Span -> Style, toEntry: Span -> Entry)
    ensures multiset(Emitted(hs, style, StylesOf(hs, style), toEntry)) == multiset(MapSeq(hs, toEntry))
    decreases |hs|
  {
    if hs != [] {
      var init, x := hs[..|hs| - 1], hs[|hs| - 1];
      assert init + [x] == hs;
      var ks := StylesOf(init, style);
      EmittedPermutation(init, style, toEntry);
      StylesAreDistinct(init, style);
      EmittedAppend(init, x, style, ks, toEntry);
      MapSeqAppend(init, x, toEntry);
      if style(x) !in ks {
        NewStyleEmitted(init, x, style, toEntry);
      } else {
        assert StylesOf(hs, style) == ks;
      }
      MultisetClose(Emitted(hs, style, StylesOf(hs, style), toEntry), Emitted(hs, style, ks, toEntry),
        Emitted(init, style, ks, toEntry), MapSeq(init, toEntry), MapSeq(hs, toEntry), toEntry(x), style(x) in ks);
    }
  }

  /** The multiset bookkeeping of one step of EmittedPermutation. */
  lemma MultisetClose(all: seq<Entry>, listed: seq<Entry>, before: seq<Entry>, entries: seq<Entry>, more: seq<Entry>, y: Entry, known: bool)
    requires multiset(before) == multiset(entries) && more == entries + [y]
    requires multiset(listed) == multiset(before) + (if known then multiset{y} else multiset{})
    requires all == if known then listed else listed + [y]
    ensures multiset(all) == multiset(more)
  {
  }

  /** A heading whose style is new opens a group of its own, at the end. */
  lemma NewStyleEmitted(init: seq<Span>, x: Span, style: Span -> Style, toEntry: Span -> Entry)
    requires style(x) !in StylesOf(init, style)
    ensures Emitted(init + [x], style, StylesOf(init + [x], style), toEntry) ==
      Emitted(init + [x], style, StylesOf(init, style), toEntry) + [toEntry(x)]
  {
    var hs, ks := init + [x], StylesOf(init, style);
    assert hs[..|hs| - 1] == init;
    MembersAbsent(init, style, style(x));
    MembersAppend(init, x, style, style(x));
    assert Members(hs, style, style(x)) == [x];
    assert StylesOf(hs, style) == ks + [style(x)];
    EmittedLast(hs, style, ks, style(x), toEntry);
    assert MapSeq([x], toEntry) == [toEntry(x)];
  }

  /** One more style adds its members' entries at the end. */
  lemma EmittedLast(hs: seq<Span>, style: Span -> Style, ks: seq<Style>, k: Style, toEntry: Span -> Entry)
    ensures Emitted(hs, style, ks + [k], toEntry) == Emitted(hs, style, ks, toEntry) + MapSeq(Members(hs, style, k), toEntry)
  {
    assert (ks + [k])[..|ks|] == ks;
  }

  /** The span of all_spans with the entry's text and page. */
  function SameTextPage(e: Entry): Span -> bool {
    (h: Span) => h.text == e.text && h.page == e.page
  }

  /** `(x["page"], [h for h in all_spans if ...][0]['bbox'][1])`; without a
      matching span, where Python would raise, the key is the page alone. */
  function PositionKey(all: seq<Span>): Entry -> seq<int> {
    (e: Entry) => match FirstWhere(all, SameTextPage(e))
      case Some(k) => [e.page, all[k].y0]
      case None => [e.page]
  }

  /** The entries sorted by page and then by position. */
  function OutlineOf(all: seq<Span>, pot: seq<Span>, style: Span -> Style): seq<Entry> {
    var ranked := RankedStyles(pot, style);
    SortBy(Emitted(pot, style, StylesOf(pot, style), EntryOf(ranked, style)), PositionKey(all))
  }

  /** The outline holds exactly the potential headings, each once, at the
      level of its style. */
  lemma OutlinePermutation(all: seq<Span>, pot: seq<Span>, style: Span -> Style)
    ensures multiset(OutlineOf(all, pot, style)) == multiset(MapSeq(pot, EntryOf(RankedStyles(pot, style), style)))
  {
    EmittedPermutation(pot, style, EntryOf(RankedStyles(pot, style), style));
  }

  /** Sorting by position puts the pages in order. */
  lemma PositionPages(all: seq<Span>, o: seq<Entry>)
    requires SortedBy(o, PositionKey(all))
    ensures PagesNonDecreasing(o)
  {
    forall i, j | 0 <= i < j < |o| ensures o[i].page <= o[j].page {
      assert LexLe(PositionKey(all)(o[i]), PositionKey(all)(o[j]));
    }
  }

  /** The outline is in page order. */
  /** The top edge of the first span of all_spans with the entry's text
      and page, the second component of the sort key. */
  function TopOf(all: seq<Span>, e: Entry): int
    requires FirstWhere(all, SameTextPage(e)).Some?
  {
    all[FirstWhere(all, SameTextPage(e)).value].y0
  }

  /** Sorting by position puts the entries of one page in order of their
      top edge when every lookup finds its span. */
  lemma PositionWithinPage(all: seq<Span>, o: seq<Entry>)
    requires SortedBy(o, PositionKey(all))
    requires forall e :: e in o ==> FirstWhere(all, SameTextPage(e)).Some?
    ensures forall i, j :: 0 <= i < j < |o| && o[i].page == o[j].page ==> TopOf(all, o[i]) <= TopOf(all, o[j])
  {
    forall i, j | 0 <= i < j < |o| && o[i].page == o[j].page ensures TopOf(all, o[i]) <= TopOf(all, o[j]) {
      assert o[i] in o && o[j] in o;
      assert LexLe(PositionKey(all)(o[i]), PositionKey(all)(o[j]));
      LexLePair(o[i].page, TopOf(all, o[i]), o[j].page, TopOf(all, o[j]));
    }
  }

  /** The outline is sorted by the key (page, top edge of its span). */
  lemma OutlineInPageOrder(all: seq<Span>, pot: seq<Span>, style: Span -> Style)
    ensures SortedBy(OutlineOf(all, pot, style), PositionKey(all))
    ensures PagesNonDecreasing(OutlineOf(all, pot, style))
  {
    var ranked := RankedStyles(pot, style);
    SortBySorted(Emitted(pot, style, StylesOf(pot, style), EntryOf(ranked, style)), PositionKey(all));
    PositionPages(all, OutlineOf(all, pot, style));
  }

  /** An entry of the outline is the entry of some potential heading. */
  lemma OutlineEntryFrom(all: seq<Span>, pot: seq<Span>, style: Span -> Style, e: Entry)
    requires e in OutlineOf(all, pot, style)
    ensures exists n :: 0 <= n < |pot| && EntryOf(RankedStyles(pot, style), style)(pot[n]) == e
  {
    OutlinePermutation(all, pot, style);
    InMapSeq(pot, EntryOf(RankedStyles(pot, style), style), OutlineOf(all, pot, style), e);
  }

  /** The position lookup finds a span for every entry when the headings
      are spans of all_spans, so the sort never fails. */
  lemma OutlineLookupSucceeds(all: seq<Span>, pot: seq<Span>, style: Span -> Style)
    requires forall h :: h in pot ==> h in all
    ensures forall e :: e in OutlineOf(all, pot, style) ==> FirstWhere(all, SameTextPage(e)).Some?
  {
    forall e | e in OutlineOf(all, pot, style) ensures FirstWhere(all, SameTextPage(e)).Some? {
      OutlineEntryFrom(all, pot, style, e);
      var n :| 0 <= n < |pot| && EntryOf(RankedStyles(pot, style), style)(pot[n]) == e;
      assert pot[n] in all;
      var k :| 0 <= k < |all| && all[k] == pot[n];
      assert SameTextPage(e)(all[k]);
    }
  }

  /** With at least one potential heading, the outline has an H1: the
      first ranked style always has a heading. */
  lemma OutlineHasH1(all: seq<Span>, pot: seq<Span>, style: Span -> Style)
    requires pot != []
    ensures exists k :: 0 <= k < |OutlineOf(all, pot, style)| && OutlineOf(all, pot, style)[k].level == 1
  {
    var ranked := RankedStyles(pot, style);
    StylesDistinct(pot, style);
    assert style(pot[0]) in StylesOf(pot, style);
    RankedDistinct(pot, style);
    var top := ranked[0];
    assert top in StylesOf(pot, style);
    var n :| 0 <= n < |pot| && style(pot[n]) == top;
    var e := EntryOf(ranked, style)(pot[n]);
    assert MapSeq(pot, EntryOf(ranked, style))[n] == e;
    OutlinePermutation(all, pot, style);
    assert e in multiset(OutlineOf(all, pot, style));
  }

  // ---------------------------------------------------------------------
  // all_spans

  predicate NonBlank(s: Span) { Strip(s.text) != [] }

  /** The record kept for a span: cleaned text, 1-based page. */
  function Recorded(s: Span): Span { s.(text := Preprocess(s.text), page := s.page + 1) }

  /** all_spans: every span whose text is not blank, in reading order. */
  function AllSpans(raw: seq<Span>): seq<Span> {
    MapSeq(Filter(raw, NonBlank), Recorded)
  }

  /** The span-collection loop of extract. */
  method CollectSpans(raw: seq<Span>) returns (all: seq<Span>)
    ensures all == AllSpans(raw)
  {
    all := [];
    for i := 0 to |raw|
      invariant all == MapSeq(Filter(raw[..i], NonBlank), Recorded)
    {
      FilterSnoc(raw, i, NonBlank);
      if Strip(raw[i].text) != [] {
        MapSeqAppend(Filter(raw[..i], NonBlank), raw[i], Recorded);
        all := all + [Recorded(raw[i])];
      }
    }
    assert raw[..|raw|] == raw;
  }

  /** Every recorded text is cleaned and comes from a non-blank span. */
  lemma AllSpansShape(raw: seq<Span>)
    ensures forall k :: 0 <= k < |AllSpans(raw)| ==>
      Collapsed(AllSpans(raw)[k].text) && exists s :: s in raw && NonBlank(s) && AllSpans(raw)[k] == Recorded(s)
  {
    var kept := Filter(raw, NonBlank);
    forall k | 0 <= k < |AllSpans(raw)|
      ensures Collapsed(AllSpans(raw)[k].text)
      ensures exists s :: s in raw && NonBlank(s) && AllSpans(raw)[k] == Recorded(s)
    {
      assert AllSpans(raw)[k] == Recorded(kept[k]);
    }
  }

  // ---------------------------------------------------------------------
  // extract_title

  function UpperChar(c: char): char {
    if IsLower(c) then (c as int - 32) as char else c
  }

  /** One character of str.title(): a letter after a letter goes to lower
      case, any other letter to upper case. */
  function TitleChar(s: string, i: nat): char
    requires i < |s|
  {
    if !IsLetter(s[i]) then s[i]
    else if i > 0 && IsLetter(s[i - 1]) then LowerChar(s[i])
    else UpperChar(s[i])
  }

  /** str.title(): every word (a run of letters) starts with an upper-case
      letter and goes on in lower case; the letters stay the same letters
      and everything else is left alone. */
  function TitleCase(s: string): (r: string)
    ensures |r| == |s|
    ensures forall i :: 0 <= i < |s| ==> (IsLetter(r[i]) <==> IsLetter(s[i]))
    ensures forall i :: 0 <= i < |s| && !IsLetter(s[i]) ==> r[i] == s[i]
    ensures forall i :: 0 <= i < |s| && IsLetter(s[i]) ==> LowerChar(r[i]) == LowerChar(s[i])
    ensures forall i :: 0 <= i < |s| && IsLetter(s[i]) ==> (IsUpper(r[i]) <==> i == 0 || !IsLetter(s[i - 1]))
  {
    var r := seq(|s|, i requires 0 <= i < |s| => TitleChar(s, i));
    forall i | 0 <= i < |s| ensures TitleCharFacts(s, i, r[i]) {
      TitleCharMeaning(s, i);
    }
    r
  }

  predicate TitleCharFacts(s: string, i: nat, c: char)
    requires i < |s|
  {
    (IsLetter(c) <==> IsLetter(s[i])) && (!IsLetter(s[i]) ==> c == s[i]) &&
    (IsLetter(s[i]) ==> LowerChar(c) == LowerChar(s[i]) && (IsUpper(c) <==> i == 0 || !IsLetter(s[i - 1])))
  }

  lemma TitleCharMeaning(s: string, i: nat)
    requires i < |s|
    ensures TitleCharFacts(s, i, TitleChar(s, i))
  {
  }

  /** Title-casing twice is the same as title-casing once. */
  lemma TitleCaseIdempotent(s: string)
    ensures TitleCase(TitleCase(s)) == TitleCase(s)
  {
    var r := TitleCase(s);
    forall i | 0 <= i < |s| ensures TitleCase(r)[i] == r[i] {
      assert TitleCase(r)[i] == TitleChar(r, i);
    }
  }

  /** `.replace('_', ' ')` */
  function Unscored(s: string): (r: string)
    ensures |r| == |s| && forall i :: 0 <= i < |s| ==> r[i] == (if s[i] == '_' then ' ' else s[i])
  {
    seq(|s|, i requires 0 <= i < |s| => if s[i] == '_' then ' ' else s[i])
  }

  /** The index of the last '.', if any. */
  function LastDot(s: string): (r: Option<nat>)
    ensures r.Some? ==> r.value < |s| && s[r.value] == '.' && forall j :: r.value < j < |s| ==> s[j] != '.'
    ensures r.None? ==> forall j :: 0 <= j < |s| ==> s[j] != '.'
  {
    if s == [] then None
    else if s[|s| - 1] == '.' then Some(|s| - 1)
    else LastDot(s[..|s| - 1])
  }

  /** `os.path.splitext(name)[0]` on a file name: everything before the
      last dot, unless only dots come before it. */
  function Stem(name: string): (r: string)
    ensures |r| <= |name| && r == name[..|r|]
  {
    match LastDot(name)
    case None => name
    case Some(i) => if forall j :: 0 <= j < i ==> name[j] == '.' then name else name[..i]
  }

  /** The extension of a plain file name is dropped. */
  lemma StemDropsExtension(base: string, ext: string)
    requires base != [] && base[0] != '.' && forall j :: 0 <= j < |ext| ==> ext[j] != '.'
    ensures Stem(base + "." + ext) == base
  {
    var name := base + "." + ext;
    assert name[|base|] == '.';
    forall j | |base| < j < |name| ensures name[j] != '.' {
      assert name[j] == ext[j - |base| - 1];
    }
    assert LastDot(name) == Some(|base|);
    assert name[0] == base[0];
    assert name[..|base|] == base;
  }

  /** `doc.metadata.get('title')`, stripped, when it is longer than 5. */
  function MetadataTitle(metadata: Option<string>): (r: Option<string>)
    ensures r.Some? ==> |r.value| > 5 && Trimmed(r.value)
  {
    StripTrimmed(if metadata.Some? then metadata.value else []);
    if metadata.Some? && metadata.value != [] && |Strip(metadata.value)| > 5 then Some(Strip(metadata.value))
    else None
  }

  predicate OnFirstPage(s: Span) { s.page == 1 }

  /** `key=lambda s: (-s["size"], s["bbox"][1])`: largest first, then
      topmost. */
  function SizeTopKey(s: Span): seq<int> { [-s.size, s.y0] }

  /** extract_title: the metadata title; else, with no first-page span, the
      file name title-cased; else the largest, topmost first-page span when
      it has fewer than 15 words; else None. */
  function ExtractTitle(metadata: Option<string>, name: string, all: seq<Span>): Option<string> {
    match MetadataTitle(metadata)
    case Some(t) => Some(t)
    case None =>
      var first := Filter(all, OnFirstPage);
      if first == [] then Some(TitleCase(Unscored(Stem(name))))
      else
        var top := SortBy(first, SizeTopKey)[0];
        if WordCount(top.text) < 15 then Some(top.text) else None
  }

  /** No first-page span comes before it under the size-then-top key: none
      is larger, and none as large is higher up. */
  predicate Prominent(s: Span, all: seq<Span>) {
    s in all && OnFirstPage(s) &&
    forall t :: t in all && OnFirstPage(t) ==> LexLe(SizeTopKey(s), SizeTopKey(t))
  }

  /** The head of the sorted first-page spans is the most prominent one. */
  lemma TopIsProminent(all: seq<Span>)
    requires Filter(all, OnFirstPage) != []
    ensures Prominent(SortBy(Filter(all, OnFirstPage), SizeTopKey)[0], all)
  {
    var first := Filter(all, OnFirstPage);
    var top := SortBy(first, SizeTopKey)[0];
    SortByHead(first, SizeTopKey);
    forall t | t in all && OnFirstPage(t) ensures LexLe(SizeTopKey(top), SizeTopKey(t)) {
      var j :| 0 <= j < |all| && all[j] == t;
      assert t in first;
    }
    assert top in first;
  }

  /** The size-then-top key: larger first, then higher up. */
  lemma SizeTopOrder(s: Span, t: Span)
    ensures LexLe(SizeTopKey(s), SizeTopKey(t)) <==> s.size > t.size || (s.size == t.size && s.y0 <= t.y0)
  {
    LexLePair(-s.size, s.y0, -t.size, t.y0);
  }

  /** The title is that span's text when it has fewer than 15 words, and
      None otherwise. */
  predicate ProminentTitle(s: Span, all: seq<Span>, title: Option<string>) {
    Prominent(s, all) && title == (if WordCount(s.text) < 15 then Some(s.text) else None)
  }

  /** Without a metadata title, the title comes from the most prominent
      first-page span. */
  lemma TitleFromProminentSpan(metadata: Option<string>, name: string, all: seq<Span>)
    requires MetadataTitle(metadata).None? && Filter(all, OnFirstPage) != []
    ensures exists s :: ProminentTitle(s, all, ExtractTitle(metadata, name, all))
  {
    TopIsProminent(all);
    var top := SortBy(Filter(all, OnFirstPage), SizeTopKey)[0];
    assert ProminentTitle(top, all, ExtractTitle(metadata, name, all));
  }

  // ---------------------------------------------------------------------
  // extract

  /** An opened PDF: its file name, metadata title, page heights and the
      spans of every page in reading order (pages numbered from 0). */
  datatype Pdf = Pdf(name: string, metadata: Option<string>, heights: seq<int>, spans: seq<Span>)

  /** The JSON result; the title is None (null) when nothing was found. */
  datatype Result = Result(title: Option<string>, outline: seq<Entry>)

  function PotentialAt(height: int): Span -> bool {
    (s: Span) => IsPotentialHeading(s, height)
  }

  predicate IsH1(e: Entry) { e.level == 1 }

  /** `if not title`: the first H1, else the first entry, else the file
      name. */
  function FinalTitle(found: Option<string>, outline: seq<Entry>, name: string): string {
    if found.Some? && found.value != [] then found.value
    else match FirstWhere(outline, IsH1)
      case Some(k) => outline[k].text
      case None => if outline != [] then outline[0].text else Stem(name)
  }

  /** extract, with the style key as a parameter. */
  function ExtractedWith(pdf: Pdf, style: Span -> Style): Result {
    if pdf.heights == [] then Result(Some(Stem(pdf.name)), [])
    else
      var all := AllSpans(pdf.spans);
      var pot := Filter(all, PotentialAt(pdf.heights[0]));
      var found := ExtractTitle(pdf.metadata, pdf.name, all);
      if pot == [] then Result(found, [])
      else
        var outline := OutlineOf(all, pot, style);
        Result(Some(FinalTitle(found, outline, pdf.name)), outline)
  }

  /** The font_styles loop: one list per style, filled in one pass. */
  method GroupByStyle(hs: seq<Span>, style: Span -> Style) returns (order: seq<Style>, groups: map<Style, seq<Span>>)
    ensures order == StylesOf(hs, style)
    ensures forall k :: k in groups <==> k in order
    ensures forall k :: k in groups ==> groups[k] == Members(hs, style, k)
  {
    order := [];
    groups := map[];
    for n := 0 to |hs|
      invariant order == StylesOf(hs[..n], style)
      invariant forall k :: k in groups <==> k in order
      invariant forall k :: k in groups ==> groups[k] == Members(hs[..n], style, k)
    {
      StylesSnoc(hs, n, style);
      var k := style(hs[n]);
      if k in groups {
        groups := groups[k := groups[k] + [hs[n]]];
      } else {
        MembersAbsent(hs[..n], style, k);
        groups := groups[k := [hs[n]]];
        order := order + [k];
      }
    }
    assert hs[..|hs|] == hs;
  }

  /** The inner outline loop: one group's headings, all at one level. */
  method AppendGroup(outline: seq<Entry>, members: seq<Span>, level: nat, toEntry: Span -> Entry) returns (out: seq<Entry>)
    requires forall m :: m in members ==> toEntry(m) == Entry(level, m.text, m.page)
    ensures out == outline + MapSeq(members, toEntry)
  {
    out := outline;
    for j := 0 to |members|
      invariant out == outline + MapSeq(members[..j], toEntry)
    {
      MapSeqSnoc(members, j, toEntry);
      assert members[j] in members;
      out := out + [Entry(level, members[j].text, members[j].page)];
    }
    assert members[..|members|] == members;
  }

  /** The outline loop: each style's headings at the style's level. */
  method EmitOutline(hs: seq<Span>, style: Span -> Style, order: seq<Style>, groups: map<Style, seq<Span>>,
                     ranked: seq<Style>, levels: map<Style, nat>) returns (outline: seq<Entry>)
    requires forall k :: k in order ==> k in groups && groups[k] == Members(hs, style, k)
    requires forall k :: k in order ==> k in levels && levels[k] == LevelIn(ranked, k)
    ensures outline == Emitted(hs, style, order, EntryOf(ranked, style))
  {
    outline := [];
    for i := 0 to |order|
      invariant outline == Emitted(hs, style, order[..i], EntryOf(ranked, style))
    {
      var st := order[i];
      EmittedSnoc(hs, style, order, i, EntryOf(ranked, style));
      MembersOfStyle(hs, style, st);
      outline := AppendGroup(outline, groups[st], levels[st], EntryOf(ranked, style));
    }
    assert order[..|order|] == order;
  }

  /** Grouping, ranking, level map, outline loop and position sort. */
  method BuildOutline(all: seq<Span>, pot: seq<Span>, style: Span -> Style) returns (outline: seq<Entry>)
    ensures outline == OutlineOf(all, pot, style)
  {
    var order, groups := GroupByStyle(pot, style);
    var ranked := SortBy(order, StyleRank);
    assert ranked == RankedStyles(pot, style);
    RankedDistinct(pot, style);
    var levels := LevelMap(ranked);
    outline := EmitOutline(pot, style, order, groups, ranked, levels);
    outline := SortBy(outline, PositionKey(all));
  }

  /** The final title choice of extract. */
  method ChooseTitle(found: Option<string>, outline: seq<Entry>, name: string) returns (title: string)
    ensures title == FinalTitle(found, outline, name)
  {
    if found.Some? && found.value != [] {
      title := found.value;
    } else {
      var h1 := Filter(outline, IsH1);
      FilterHead(outline, IsH1);
      if h1 != [] {
        title := h1[0].text;
      } else if outline != [] {
        title := outline[0].text;
      } else {
        title := Stem(name);
      }
    }
  }

  /** extract */
  method Extract(pdf: Pdf, style: Span -> Style) returns (r: Result)
    ensures r == ExtractedWith(pdf, style)
  {
    if |pdf.heights| == 0 {
      return Result(Some(Stem(pdf.name)), []);
    }
    var all := CollectSpans(pdf.spans);
    var pot := Filter(all, PotentialAt(pdf.heights[0]));
    var found := ExtractTitle(pdf.metadata, pdf.name, all);
    if pot == [] {
      return Result(found, []);
    }
    var outline := BuildOutline(all, pot, style);
    var title := ChooseTitle(found, outline, pdf.name);
    r := Result(Some(title), outline);
  }

  // ---------------------------------------------------------------------
  // Properties of extract

  /** The potential headings of an opened document with pages. */
  function PotentialOf(pdf: Pdf): seq<Span>
    requires pdf.heights != []
  {
    Filter(AllSpans(pdf.spans), PotentialAt(pdf.heights[0]))
  }

  /** The outline is empty exactly when the document has no pages or no
      potential heading. */
  lemma OutlineEmptyIff(pdf: Pdf, style: Span -> Style)
    ensures ExtractedWith(pdf, style).outline == [] <==> pdf.heights == [] || PotentialOf(pdf) == []
  {
    if pdf.heights != [] && PotentialOf(pdf) != [] {
      OutlinePermutation(AllSpans(pdf.spans), PotentialOf(pdf), style);
      assert |OutlineOf(AllSpans(pdf.spans), PotentialOf(pdf), style)| == |PotentialOf(pdf)|;
    }
  }

  /** Every potential heading is in the outline exactly once, at the level
      of its style (H1 to H3), and the outline is in page order. */
  lemma ExtractedOutline(pdf: Pdf, style: Span -> Style)
    requires pdf.heights != []
    ensures var pot := PotentialOf(pdf); var o := ExtractedWith(pdf, style).outline;
      multiset(o) == multiset(MapSeq(pot, EntryOf(RankedStyles(pot, style), style)))
    ensures var o := ExtractedWith(pdf, style).outline;
      PagesNonDecreasing(o) && LevelsWithin(o, 1, 3)
  {
    var all, pot := AllSpans(pdf.spans), PotentialOf(pdf);
    if pot != [] {
      assert ExtractedWith(pdf, style).outline == OutlineOf(all, pot, style);
      OutlinePermutation(all, pot, style);
      OutlineInPageOrder(all, pot, style);
      OutlineLevels(all, pot, style);
    }
  }

  /** The position lookup of the sort always finds its span, and the
      outline is sorted by page and then by the top edge of that span. */
  lemma ExtractedOrder(pdf: Pdf, style: Span -> Style)
    requires pdf.heights != []
    ensures var all, o := AllSpans(pdf.spans), ExtractedWith(pdf, style).outline;
      (forall e :: e in o ==> FirstWhere(all, SameTextPage(e)).Some?) &&
      SortedBy(o, PositionKey(all)) &&
      forall i, j :: 0 <= i < j < |o| && o[i].page == o[j].page ==> TopOf(all, o[i]) <= TopOf(all, o[j])
  {
    var all, pot := AllSpans(pdf.spans), PotentialOf(pdf);
    if pot != [] {
      var o := OutlineOf(all, pot, style);
      assert ExtractedWith(pdf, style).outline == o;
      OutlineInPageOrder(all, pot, style);
      OutlineLookupSucceeds(all, pot, style);
      PositionWithinPage(all, o);
    }
  }

  lemma OutlineLevels(all: seq<Span>, pot: seq<Span>, style: Span -> Style)
    ensures LevelsWithin(OutlineOf(all, pot, style), 1, 3)
  {
    var o := OutlineOf(all, pot, style);
    forall k | 0 <= k < |o| ensures 1 <= o[k].level <= 3 {
      OutlineEntryFrom(all, pot, style, o[k]);
    }
  }

  /** Without a usable title from extract_title, the title is the text of
      the first H1 entry, and there always is one. */
  lemma TitleFallsBackToH1(pdf: Pdf, style: Span -> Style)
    requires pdf.heights != [] && PotentialOf(pdf) != []
    requires var found := ExtractTitle(pdf.metadata, pdf.name, AllSpans(pdf.spans)); found.None? || found.value == []
    ensures var o := ExtractedWith(pdf, style).outline;
      exists k :: 0 <= k < |o| && FirstH1At(o, k) && ExtractedWith(pdf, style).title == Some(o[k].text)
  {
    var all, pot := AllSpans(pdf.spans), PotentialOf(pdf);
    var found := ExtractTitle(pdf.metadata, pdf.name, all);
    var o := OutlineOf(all, pot, style);
    ExtractedWhenPotential(pdf, style);
    OutlineHasH1(all, pot, style);
    var k := FinalTitleFromH1(found, o, pdf.name);
    assert ExtractedWith(pdf, style).title == Some(o[k].text);
  }

  /** Without a found title, an outline with an H1 entry gives the text of
      its first H1 entry. */
  lemma FinalTitleFromH1(found: Option<string>, o: seq<Entry>, name: string) returns (k: nat)
    requires found.None? || found.value == []
    requires exists h :: 0 <= h < |o| && o[h].level == 1
    ensures FirstH1At(o, k) && FinalTitle(found, o, name) == o[k].text
  {
    var h :| 0 <= h < |o| && o[h].level == 1;
    assert IsH1(o[h]);
    k := FirstWhere(o, IsH1).value;
  }

  /** With pages and potential headings, the outline is built from them and
      the title goes through the fallback chain. */
  lemma ExtractedWhenPotential(pdf: Pdf, style: Span -> Style)
    requires pdf.heights != [] && PotentialOf(pdf) != []
    ensures var all := AllSpans(pdf.spans);
      var o := OutlineOf(all, PotentialOf(pdf), style);
      ExtractedWith(pdf, style) == Result(Some(FinalTitle(ExtractTitle(pdf.metadata, pdf.name, all), o, pdf.name)), o)
  {
  }

  /** Entry k is the first H1. */
  predicate FirstH1At(o: seq<Entry>, k: nat) {
    k < |o| && o[k].level == 1 && forall j :: 0 <= j < k ==> o[j].level != 1
  }

  /** A metadata title longer than 5 characters, stripped, is the title. */
  lemma TitleFromMetadata(pdf: Pdf, style: Span -> Style)
    requires pdf.heights != [] && MetadataTitle(pdf.metadata).Some?
    ensures ExtractedWith(pdf, style).title == MetadataTitle(pdf.metadata)
    ensures |ExtractedWith(pdf, style).title.value| > 5
  {
  }

  // ---------------------------------------------------------------------
  // The bold component of the style key

  /** A span at least as large (in whole points) and at least as bold as
      another never gets a deeper level; two spans of the same rounded size
      and boldness share their level. */
  lemma StyleLevelsFollowProminence(pot: seq<Span>, a: Span, b: Span)
    requires a in pot && b in pot
    requires RoundHalfEven(a.size) >= RoundHalfEven(b.size) && (BoldSpan(b) ==> BoldSpan(a))
    ensures var ranked := RankedStyles(pot, StyleOf);
      LevelIn(ranked, StyleOf(a)) <= LevelIn(ranked, StyleOf(b))
  {
    StylesDistinct(pot, StyleOf);
    var na :| 0 <= na < |pot| && pot[na] == a;
    var nb :| 0 <= nb < |pot| && pot[nb] == b;
    assert StyleOf(pot[na]) in StylesOf(pot, StyleOf);
    assert StyleOf(pot[nb]) in StylesOf(pot, StyleOf);
    var sa, sb := StyleOf(a), StyleOf(b);
    LexLePair(-sa.points, -sa.bold, -sb.points, -sb.bold);
    LargerStyleNotDeeper(pot, StyleOf, sa, sb);
  }

  /** Two bold 14-point spans: one says bold in its font name, the other
      only in its flags. */
  const NamedBold := Span("Alpha", 1400, 0, "bold", 1, 3000, 3400)
  const FlaggedBold := Span("Beta", 1400, 16, "", 1, 5000, 5400)

  lemma ExampleStyles()
    ensures BoldSpan(NamedBold) && BoldSpan(FlaggedBold)
    ensures StyleAsWritten(NamedBold) == Style(14, 1) && StyleAsWritten(FlaggedBold) == Style(14, 16)
  {
    assert Lower("bold") == "bold";
    assert StartsWith("bold", "bold");
    assert Contains(Lower(NamedBold.font), "bold");
    assert !Contains(Lower(FlaggedBold.font), "bold");
  }

  lemma ExampleRanked()
    ensures RankedStyles([NamedBold, FlaggedBold], StyleAsWritten) == [Style(14, 16), Style(14, 1)]
  {
    var a, b := NamedBold, FlaggedBold;
    var sa, sb := Style(14, 1), Style(14, 16);
    ExampleStyles();
    assert [a][..0] == [];
    assert StylesOf([a], StyleAsWritten) == [sa];
    assert [a, b][..1] == [a];
    assert StylesOf([a, b], StyleAsWritten) == [sa, sb];
    assert [sa, sb][..1] == [sa];
    LexLePair(-14, -1, -14, -16);
    assert SortBy([sa], StyleRank) == [sa];
    assert RankedStyles([a, b], StyleAsWritten) == Insert(sb, [sa], StyleRank);
  }

  /** As written, a span whose font name says bold and a span whose flags
      say bold fall into different styles even at the same size, so one is
      H1 and the other H2. */
  lemma AsWrittenSplitsBold()
    ensures var a, b := NamedBold, FlaggedBold;
      var ranked := RankedStyles([a, b], StyleAsWritten);
      BoldSpan(a) && BoldSpan(b) && RoundHalfEven(a.size) == RoundHalfEven(b.size) &&
      LevelIn(ranked, StyleAsWritten(a)) == 2 && LevelIn(ranked, StyleAsWritten(b)) == 1
  {
    ExampleStyles();
    ExampleRanked();
  }
}
