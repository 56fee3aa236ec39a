// group_by_font_properties and assign_heading_levels, shared by the three
// multilingual variants (1A/main.py, 1A/main3.py, 1A/main4.py). The
// variants differ only in the per-group cap: 1A/main4.py keeps the first
// 10 spans of a group, the other two keep them all. 1A/main.py and
// 1A/main3.py also share classify_headings_multilingual, up to their own
// has_heading_characteristics.

module FontGroups {
  import opened Common
  import opened Text
  import opened Sorting
  import opened Noise

  /** `(round(size, 1), font.lower(), bold, italic)`; the size is kept in
      tenths of a point. */
  datatype FontKey = FontKey(tenths: int, font: string, bold: bool, italic: bool)

  datatype Group = Group(key: FontKey, members: seq<Span>)

  /** `round(size, 1)` on a size in hundredths, rounding halves up. */
  function RoundTenths(size: int): (t: int)
    ensures 10 * t - 5 <= size < 10 * t + 5
  {
    (size + 5) / 10
  }

  function KeyOf(s: Span): FontKey {
    FontKey(RoundTenths(s.size), Lower(s.font), BoldFlag(s.flags), ItalicFlag(s.flags))
  }

  function Keys(groups: seq<Group>): (ks: seq<FontKey>)
    ensures |ks| == |groups| && forall i :: 0 <= i < |groups| ==> ks[i] == groups[i].key
  {
    seq(|groups|, i requires 0 <= i < |groups| => groups[i].key)
  }

  /** The spans of `hs` whose key is `k`, in order. */
  function WithKey(hs: seq<Span>, k: FontKey): seq<Span> {
    if hs == [] then []
    else WithKey(hs[..|hs| - 1], k) + (if KeyOf(hs[|hs| - 1]) == k then [hs[|hs| - 1]] else [])
  }

  /** The distinct keys of `hs` in order of first appearance. */
  function DistinctKeys(hs: seq<Span>): seq<FontKey> {
    if hs == [] then []
    else
      var ks := DistinctKeys(hs[..|hs| - 1]);
      if KeyOf(hs[|hs| - 1]) in ks then ks else ks + [KeyOf(hs[|hs| - 1])]
  }

  /** The groups the defaultdict ends up with: one per distinct key, in
      order of first appearance, holding the spans with that key in input
      order. */
  function GroupsOf(hs: seq<Span>): (gs: seq<Group>)
    ensures Keys(gs) == DistinctKeys(hs)
  {
    var ks := DistinctKeys(hs);
    seq(|ks|, i requires 0 <= i < |ks| => Group(ks[i], WithKey(hs, ks[i])))
  }

  /** group_by_font_properties: a dict from key to spans, filled in one
      pass, listed in insertion order. */
  method GroupByFontProperties(headings: seq<Span>) returns (groups: seq<Group>)
    ensures groups == GroupsOf(headings)
  {
    var members: map<FontKey, seq<Span>> := map[];
    var order: seq<FontKey> := [];
    for n := 0 to |headings|
      invariant order == DistinctKeys(headings[..n])
      invariant forall k :: k in members <==> k in order
      invariant forall k :: k in members ==> members[k] == WithKey(headings[..n], k)
    {
      var h := headings[n];
      assert headings[..n + 1][..n] == headings[..n];
      assert headings[..n + 1][n] == h;
      var k := KeyOf(h);
      if k in members {
        members := members[k := members[k] + [h]];
      } else {
        WithKeyAbsent(headings[..n], k);
        members := members[k := [h]];
        order := order + [k];
      }
    }
    assert headings[..|headings|] == headings;
    groups := seq(|order|, i requires 0 <= i < |order| => Group(order[i], members[order[i]]));
  }

  /** Every span lands in the one group of its key. */
  lemma GroupsOfCover(hs: seq<Span>)
    ensures forall i, j :: 0 <= i < j < |GroupsOf(hs)| ==> GroupsOf(hs)[i].key != GroupsOf(hs)[j].key
    ensures forall n :: 0 <= n < |hs| ==> exists i :: 0 <= i < |GroupsOf(hs)| && GroupsOf(hs)[i].key == KeyOf(hs[n])
  {
    DistinctKeysDistinct(hs);
    var gs := GroupsOf(hs);
    forall n | 0 <= n < |hs| ensures exists i :: 0 <= i < |gs| && gs[i].key == KeyOf(hs[n]) {
      assert KeyOf(hs[n]) in DistinctKeys(hs);
      var i :| 0 <= i < |DistinctKeys(hs)| && DistinctKeys(hs)[i] == KeyOf(hs[n]);
      assert gs[i].key == Keys(gs)[i];
    }
  }

  lemma {:induction false} WithKeyAbsent(hs: seq<Span>, k: FontKey)
    requires k !in DistinctKeys(hs)
    ensures WithKey(hs, k) == []
    decreases |hs|
  {
    if hs != [] {
      WithKeyAbsent(hs[..|hs| - 1], k);
    }
  }

  lemma {:induction false} DistinctKeysDistinct(hs: seq<Span>)
    ensures forall i, j :: 0 <= i < j < |DistinctKeys(hs)| ==> DistinctKeys(hs)[i] != DistinctKeys(hs)[j]
    ensures forall k :: k in DistinctKeys(hs) <==> exists i :: 0 <= i < |hs| && KeyOf(hs[i]) == k
    decreases |hs|
  {
    if hs != [] {
      var init := hs[..|hs| - 1];
      DistinctKeysDistinct(init);
      forall k | (exists i :: 0 <= i < |hs| && KeyOf(hs[i]) == k) ensures k in DistinctKeys(hs) {
        var i :| 0 <= i < |hs| && KeyOf(hs[i]) == k;
        if i < |init| { assert init[i] == hs[i]; }
      }
      forall k | k in DistinctKeys(hs) ensures exists i :: 0 <= i < |hs| && KeyOf(hs[i]) == k {
        if k in DistinctKeys(init) {
          var i :| 0 <= i < |init| && KeyOf(init[i]) == k;
          assert hs[i] == init[i];
        } else {
          assert KeyOf(hs[|hs| - 1]) == k;
        }
      }
    }
  }

  // ---------------------------------------------------------------------
  // assign_heading_levels

  /** `key=lambda x: (size, bold), reverse=True`: larger sizes first, bold
      before regular at the same size. */
  function RankKey(g: Group): seq<int> {
    [-g.key.tenths, if g.key.bold then -1 else 0]
  }

  function PageKey(e: Entry): seq<int> {
    [e.page]
  }

  function Capped(members: seq<Span>, cap: Option<nat>): (r: seq<Span>)
    ensures cap.Some? ==> |r| <= cap.value
    ensures |r| <= |members| && r == members[..|r|]
  {
    match cap
    case None => members
    case Some(n) => Take(members, n)
  }

  function EntriesOf(hs: seq<Span>, level: nat): (es: seq<Entry>)
    ensures |es| == |hs|
    ensures forall i :: 0 <= i < |hs| ==> es[i] == Entry(level, hs[i].text, hs[i].page)
  {
    seq(|hs|, i requires 0 <= i < |hs| => Entry(level, hs[i].text, hs[i].page))
  }

  lemma EntriesOfSnoc(hs: seq<Span>, level: nat)
    requires hs != []
    ensures EntriesOf(hs, level) == EntriesOf(hs[..|hs| - 1], level) + [Entry(level, hs[|hs| - 1].text, hs[|hs| - 1].page)]
  {
  }

  /** The entries of the ranked groups in order, the group at position i
      (from 0) labelled H(i+1). */
  function Emit(top: seq<Group>, cap: Option<nat>): seq<Entry> {
    if top == [] then []
    else Emit(top[..|top| - 1], cap) + EntriesOf(Capped(top[|top| - 1].members, cap), |top|)
  }

  function Ranked(groups: seq<Group>): seq<Group> {
    SortBy(groups, RankKey)
  }

  function AssignedLevels(groups: seq<Group>, cap: Option<nat>): seq<Entry> {
    SortBy(Emit(Take(Ranked(groups), 3), cap), PageKey)
  }

  method AssignHeadingLevels(groups: seq<Group>, cap: Option<nat>) returns (headings: seq<Entry>)
    ensures headings == AssignedLevels(groups, cap)
  {
    if groups == [] {
      return [];
    }
    var sortedGroups := SortBy(groups, RankKey);
    var top := Take(sortedGroups, 3);
    headings := [];
    for g := 0 to |top|
      invariant headings == Emit(top[..g], cap)
    {
      EmitSnoc(top, g, cap);
      headings := AppendLevel(headings, Capped(top[g].members, cap), g + 1);
    }
    assert top[..|top|] == top;
    headings := SortBy(headings, PageKey);
  }

  lemma EmitSnoc(top: seq<Group>, g: nat, cap: Option<nat>)
    requires g < |top|
    ensures Emit(top[..g + 1], cap) == Emit(top[..g], cap) + EntriesOf(Capped(top[g].members, cap), g + 1)
  {
    assert top[..g + 1][..g] == top[..g];
  }

  /** The inner loop: one entry per span of a group, at the group's level. */
  method AppendLevel(headings: seq<Entry>, members: seq<Span>, level: nat) returns (out: seq<Entry>)
    ensures out == headings + EntriesOf(members, level)
  {
    out := headings;
    for m := 0 to |members|
      invariant out == headings + EntriesOf(members[..m], level)
    {
      EntriesOfSnoc(members[..m + 1], level);
      assert members[..m + 1][..m] == members[..m];
      AppendAssoc(headings, EntriesOf(members[..m], level), [Entry(level, members[m].text, members[m].page)]);
      out := out + [Entry(level, members[m].text, members[m].page)];
    }
    assert members[..|members|] == members;
  }

  lemma {:induction false} EmitLevels(top: seq<Group>, cap: Option<nat>)
    ensures LevelsWithin(Emit(top, cap), 1, |top|)
    decreases |top|
  {
    if top != [] {
      EmitLevels(top[..|top| - 1], cap);
    }
  }

  lemma {:induction false} EmitLength(top: seq<Group>, n: nat)
    ensures |Emit(top, Some(n))| <= n * |top|
    decreases |top|
  {
    if top != [] {
      EmitLength(top[..|top| - 1], n);
      assert n * |top| == n * (|top| - 1) + n;
    }
  }

  /** Levels are H1..H3, entries are ordered by page, and entries on the
      same page keep the order in which the groups emitted them. */
  lemma AssignedLevelsShape(groups: seq<Group>, cap: Option<nat>)
    ensures var out := AssignedLevels(groups, cap);
      LevelsWithin(out, 1, 3) && PagesNonDecreasing(out) &&
      multiset(out) == multiset(Emit(Take(Ranked(groups), 3), cap)) &&
      forall p :: KeyFilter(out, PageKey, [p]) == KeyFilter(Emit(Take(Ranked(groups), 3), cap), PageKey, [p])
  {
    var top := Take(Ranked(groups), 3);
    var emitted := Emit(top, cap);
    EmitLevels(top, cap);
    SortedLevels(emitted, 3);
    SortedPages(emitted);
    forall p ensures KeyFilter(SortBy(emitted, PageKey), PageKey, [p]) == KeyFilter(emitted, PageKey, [p]) {
      SortByStable(emitted, PageKey, [p]);
    }
  }

  /** Sorting by page keeps the levels of the entries. */
  lemma SortedLevels(emitted: seq<Entry>, hi: nat)
    requires LevelsWithin(emitted, 1, hi)
    ensures LevelsWithin(SortBy(emitted, PageKey), 1, hi)
  {
    var out := SortBy(emitted, PageKey);
    forall i | 0 <= i < |out| ensures 1 <= out[i].level <= hi {
      assert out[i] in multiset(emitted);
    }
  }

  /** Sorting by page leaves the pages in order. */
  lemma SortedPages(emitted: seq<Entry>)
    ensures PagesNonDecreasing(SortBy(emitted, PageKey))
  {
    var out := SortBy(emitted, PageKey);
    SortBySorted(emitted, PageKey);
    forall i, j | 0 <= i < j < |out| ensures out[i].page <= out[j].page {
      LexLeSingle(out[i].page, out[j].page);
    }
  }

  /** With the cap of 10 the outline never has more than 30 entries. */
  lemma AssignedLevelsAtMostThirty(groups: seq<Group>)
    ensures |AssignedLevels(groups, Some(10))| <= 30
  {
    EmitLength(Take(Ranked(groups), 3), 10);
  }

  /** Groups are ranked by size, then boldness, both descending; a group
      outside the first three never outranks one inside. */
  lemma RankedDescending(groups: seq<Group>)
    ensures var r := Ranked(groups);
      multiset(r) == multiset(groups) &&
      forall i, j :: 0 <= i < j < |r| ==>
        r[i].key.tenths > r[j].key.tenths ||
        (r[i].key.tenths == r[j].key.tenths && (r[j].key.bold ==> r[i].key.bold))
  {
    var r := Ranked(groups);
    SortBySorted(groups, RankKey);
    forall i, j | 0 <= i < j < |r|
      ensures r[i].key.tenths > r[j].key.tenths ||
        (r[i].key.tenths == r[j].key.tenths && (r[j].key.bold ==> r[i].key.bold))
    {
      LexLePair(-r[i].key.tenths, if r[i].key.bold then -1 else 0, -r[j].key.tenths, if r[j].key.bold then -1 else 0);
    }
  }

  /** Without a cap, every span of the three top-ranked groups is emitted. */
  lemma {:induction false} EmitUncapped(top: seq<Group>)
    ensures |Emit(top, None)| == TotalMembers(top)
    decreases |top|
  {
    if top != [] {
      EmitUncapped(top[..|top| - 1]);
    }
  }

  function TotalMembers(gs: seq<Group>): nat {
    if gs == [] then 0 else TotalMembers(gs[..|gs| - 1]) + |gs[|gs| - 1].members|
  }

  // ---------------------------------------------------------------------
  // Where outline entries come from.

  /** The entry carries the text and page of one of the spans. */
  predicate FromSpan(e: Entry, hs: seq<Span>) {
    exists i :: 0 <= i < |hs| && e.text == hs[i].text && e.page == hs[i].page
  }

  lemma {:induction false} WithKeyMembers(hs: seq<Span>, k: FontKey)
    ensures forall m :: m in WithKey(hs, k) ==> m in hs && KeyOf(m) == k
    decreases |hs|
  {
    if hs != [] {
      WithKeyMembers(hs[..|hs| - 1], k);
      forall m | m in WithKey(hs[..|hs| - 1], k) ensures m in hs {
        var i :| 0 <= i < |hs| - 1 && hs[..|hs| - 1][i] == m;
        assert hs[i] == m;
      }
    }
  }

  lemma {:induction false} EmitFromMembers(top: seq<Group>, cap: Option<nat>, hs: seq<Span>)
    requires forall g, m :: g in top && m in g.members ==> m in hs
    ensures forall e :: e in Emit(top, cap) ==> FromSpan(e, hs)
    decreases |top|
  {
    if top != [] {
      var last := top[|top| - 1];
      EmitFromMembers(top[..|top| - 1], cap, hs);
      var es := EntriesOf(Capped(last.members, cap), |top|);
      forall e | e in es ensures FromSpan(e, hs) {
        var i :| 0 <= i < |es| && es[i] == e;
        var m := Capped(last.members, cap)[i];
        assert m == last.members[i];
        assert m in hs;
        var j :| 0 <= j < |hs| && hs[j] == m;
      }
    }
  }

  /** Every emitted entry is the text and page of one of the grouped
      spans. */
  lemma AssignedFromSpans(hs: seq<Span>, cap: Option<nat>)
    ensures forall e :: e in AssignedLevels(GroupsOf(hs), cap) ==> FromSpan(e, hs)
  {
    var gs := GroupsOf(hs);
    var top := Take(Ranked(gs), 3);
    forall g, m | g in top && m in g.members ensures m in hs {
      assert g in multiset(Ranked(gs));
      assert g in gs;
      var i :| 0 <= i < |gs| && gs[i] == g;
      WithKeyMembers(hs, Keys(gs)[i]);
    }
    EmitFromMembers(top, cap, hs);
    forall e | e in AssignedLevels(gs, cap) ensures FromSpan(e, hs) {
      assert e in multiset(AssignedLevels(gs, cap));
    }
  }

  // ---------------------------------------------------------------------
  // classify_headings_multilingual of 1A/main.py and 1A/main3.py

  /** Trimmed length 3 to 200, not a page number, not a header or footer,
      and the variant's own heading test. */
  predicate BasicCandidate(span: Span, characteristic: Span -> bool) {
    3 <= |Strip(span.text)| <= 200 && !IsPageNumber(span.text) && !IsFooterHeader(span.text)
    && characteristic(span)
  }

  function BasicClassified(spans: seq<Span>, characteristic: Span -> bool): seq<Entry> {
    AssignedLevels(GroupsOf(Filter(spans, s => BasicCandidate(s, characteristic))), None)
  }

  method ClassifyBasic(spans: seq<Span>, characteristic: Span -> bool) returns (headings: seq<Entry>)
    ensures headings == BasicClassified(spans, characteristic)
  {
    var candidate := s => BasicCandidate(s, characteristic);
    var potential: seq<Span> := [];
    for n := 0 to |spans|
      invariant potential == Filter(spans[..n], candidate)
    {
      FilterSnoc(spans, n, candidate);
      var span := spans[n];
      var text := span.text;
      var keep := 3 <= |Strip(text)| && |Strip(text)| <= 200 && !IsPageNumber(text) && !IsFooterHeader(text)
                  && characteristic(span);
      assert keep == candidate(span);
      if keep {
        potential := potential + [span];
      }
    }
    assert spans[..|spans|] == spans;
    var groups := GroupByFontProperties(potential);
    headings := AssignHeadingLevels(groups, None);
  }

  /** Levels H1 to H3 and pages in order. */
  lemma BasicClassifiedShape(spans: seq<Span>, characteristic: Span -> bool)
    ensures var out := BasicClassified(spans, characteristic);
      LevelsWithin(out, 1, 3) && PagesNonDecreasing(out)
  {
    AssignedLevelsShape(GroupsOf(Filter(spans, s => BasicCandidate(s, characteristic))), None);
  }

  /** Every entry is the text and page of a span that passed all the
      filters. */
  lemma BasicClassifiedFromCandidates(spans: seq<Span>, characteristic: Span -> bool)
    ensures forall e :: e in BasicClassified(spans, characteristic) ==>
      exists i :: (0 <= i < |spans| && BasicCandidate(spans[i], characteristic) &&
                   e.text == spans[i].text && e.page == spans[i].page)
  {
    var candidate := s => BasicCandidate(s, characteristic);
    var hs := Filter(spans, candidate);
    AssignedFromSpans(hs, None);
    assert BasicClassified(spans, characteristic) == AssignedLevels(GroupsOf(hs), None);
    forall e | e in BasicClassified(spans, characteristic)
      ensures exists i :: (0 <= i < |spans| && BasicCandidate(spans[i], characteristic) &&
                           e.text == spans[i].text && e.page == spans[i].page)
    {
      var j :| 0 <= j < |hs| && e.text == hs[j].text && e.page == hs[j].page;
      assert hs[j] in spans && candidate(hs[j]);
      var i :| 0 <= i < |spans| && spans[i] == hs[j];
    }
  }

  // ---------------------------------------------------------------------
  // extract_title of 1A/main.py and 1A/main3.py

  /** The stripped metadata title if non-blank; else the first H1; else
      the first heading; else "Document". The result is always one of
      those candidates. */
  function BasicTitle(metadata: Option<string>, headings: seq<Entry>): (title: string)
    ensures (metadata.Some? && title == Strip(metadata.value) && title != []) || title == "Document" ||
            exists i :: 0 <= i < |headings| && title == headings[i].text
    ensures headings == [] && (metadata.None? || Strip(metadata.value) == []) ==> title == "Document"
  {
    if metadata.Some? && Strip(metadata.value) != [] then Strip(metadata.value)
    else match FirstWhere(headings, (h: Entry) => h.level == 1)
      case Some(i) => headings[i].text
      case None => if headings != [] then headings[0].text else "Document"
  }

  /** Without metadata, the first H1 wins over any heading before it. */
  lemma BasicTitlePrefersFirstH1(metadata: Option<string>, headings: seq<Entry>, k: nat)
    requires metadata.None? || Strip(metadata.value) == []
    requires k < |headings| && headings[k].level == 1
    requires forall j :: 0 <= j < k ==> headings[j].level != 1
    ensures BasicTitle(metadata, headings) == headings[k].text
  {
    var f := FirstWhere(headings, (h: Entry) => h.level == 1);
    assert f == Some(k);
  }
}
