/** 1A/main6.py, pass 3 and the title: the headings of both passes are
    sorted by page, consecutive headings of one level, page and pass are
    merged into one, short, numeric, colon-ended and repeated texts are
    dropped, and the title is chosen from the H1 headings, the largest
    text of the first page or the file name. */
module MultiPassOutline {
  import opened Common
  import opened Text
  import opened Sorting
  import opened MultiPass
  import opened MultiPassFonts
  import opened MultiPassLevels

  // ---------------------------------------------------------------------
  // The sort

  /** `(x['page'], x.get('bbox', [0, 0])[1])`: no heading carries a box, so
      the second component is always 0. */
  function PageKey(h: Heading): seq<int> { [h.page, 0] }

  /** `headings.sort(...)` over the numbered headings followed by the font
      headings. */
  function SortedHeadings(numbered: seq<Heading>, font: seq<Heading>): seq<Heading> {
    SortBy(numbered + font, PageKey)
  }

  /** The sorted headings are the headings of both passes, with pages
      never going down. */
  lemma SortedHeadingsPages(numbered: seq<Heading>, font: seq<Heading>)
    ensures multiset(SortedHeadings(numbered, font)) == multiset(numbered + font)
    ensures forall i, j :: 0 <= i < j < |SortedHeadings(numbered, font)| ==>
      SortedHeadings(numbered, font)[i].page <= SortedHeadings(numbered, font)[j].page
  {
    var r := SortedHeadings(numbered, font);
    SortBySorted(numbered + font, PageKey);
    forall i, j | 0 <= i < j < |r| ensures r[i].page <= r[j].page {
      LexLePair(r[i].page, 0, r[j].page, 0);
    }
  }

  /** On each page the numbered headings come first, then the font
      headings, each in the order its pass found them. */
  lemma SortedHeadingsOnPage(numbered: seq<Heading>, font: seq<Heading>, page: int)
    ensures KeyFilter(SortedHeadings(numbered, font), PageKey, [page, 0]) ==
      KeyFilter(numbered, PageKey, [page, 0]) + KeyFilter(font, PageKey, [page, 0])
  {
    SortByStable(numbered + font, PageKey, [page, 0]);
    KeyFilterConcat(numbered, font, PageKey, [page, 0]);
  }

  // ---------------------------------------------------------------------
  // The merge

  /** Level, page and pass agree: the merge condition. */
  predicate SameGroup(a: Heading, b: Heading) {
    a.level == b.level && a.page == b.page && a.numbered == b.numbered
  }

  /** `current_heading['text'] += " " + next_heading['text']` */
  function Absorb(current: Heading, next: Heading): Heading {
    current.(text := current.text + " " + next.text)
  }

  /** One step of the merge loop: the next heading joins the last merged
      one when they share level, page and pass, and is appended otherwise. */
  function MergeStep(m: seq<Heading>, next: Heading): (r: seq<Heading>)
    ensures r != [] && SameGroup(r[|r| - 1], next)
    ensures |r| <= |m| + 1
  {
    if m != [] && SameGroup(m[|m| - 1], next) then m[..|m| - 1] + [Absorb(m[|m| - 1], next)]
    else m + [next]
  }

  /** `temp_headings` after the merge loop, with the last current heading
      appended. */
  function Merge(hs: seq<Heading>): (r: seq<Heading>)
    ensures |r| <= |hs|
    ensures hs != [] ==> r != [] && SameGroup(r[|r| - 1], hs[|hs| - 1])
  {
    if hs == [] then [] else MergeStep(Merge(hs[..|hs| - 1]), hs[|hs| - 1])
  }

  lemma MergeSnoc(hs: seq<Heading>, i: nat)
    requires 0 < i < |hs|
    ensures var m := Merge(hs[..i]);
      m != [] &&
      Merge(hs[..i + 1]) == if SameGroup(m[|m| - 1], hs[i]) then m[..|m| - 1] + [Absorb(m[|m| - 1], hs[i])] else m + [hs[i]]
  {
    assert hs[..i + 1][..i] == hs[..i];
  }

  /** The merge loop over the sorted headings. */
  method MergeRuns(hs: seq<Heading>) returns (temp: seq<Heading>)
    ensures temp == Merge(hs)
  {
    temp := [];
    if hs == [] {
      return;
    }
    var current := hs[0];
    assert hs[..1] == [hs[0]];
    for i := 1 to |hs|
      invariant temp + [current] == Merge(hs[..i])
    {
      MergeSnoc(hs, i);
      var next := hs[i];
      if next.level == current.level && next.page == current.page && next.numbered == current.numbered {
        current := current.(text := current.text + " " + next.text);
      } else {
        temp := temp + [current];
        current := next;
      }
    }
    temp := temp + [current];
    assert hs[..|hs|] == hs;
  }

  /** The texts of a list of headings, joined by single spaces. */
  function JoinTexts(hs: seq<Heading>): string {
    if hs == [] then []
    else if |hs| == 1 then hs[0].text
    else JoinTexts(hs[..|hs| - 1]) + " " + hs[|hs| - 1].text
  }

  lemma JoinTextsSnoc(hs: seq<Heading>, h: Heading)
    requires hs != []
    ensures JoinTexts(hs + [h]) == JoinTexts(hs) + " " + h.text
  {
    assert (hs + [h])[..|hs|] == hs;
  }

  lemma SpacedAssoc(x: string, y: string, z: string)
    ensures x + " " + (y + " " + z) == (x + " " + y) + " " + z
  {
  }

  /** Extending the text of the last heading extends the joined text. */
  lemma JoinTextsAbsorb(init: seq<Heading>, last: Heading, next: Heading)
    ensures JoinTexts(init + [Absorb(last, next)]) == JoinTexts(init + [last]) + " " + next.text
  {
    if init == [] {
      assert init + [Absorb(last, next)] == [Absorb(last, next)];
      assert init + [last] == [last];
    } else {
      JoinTextsSnoc(init, Absorb(last, next));
      JoinTextsSnoc(init, last);
      SpacedAssoc(JoinTexts(init), last.text, next.text);
    }
  }

  /** One merge step after a non-empty prefix adds the next text after a
      space, whether it joins the last heading or starts a new one. */
  lemma MergeStepText(m: seq<Heading>, next: Heading)
    requires m != []
    ensures JoinTexts(MergeStep(m, next)) == JoinTexts(m) + " " + next.text
  {
    if SameGroup(m[|m| - 1], next) {
      assert m == m[..|m| - 1] + [m[|m| - 1]];
      JoinTextsAbsorb(m[..|m| - 1], m[|m| - 1], next);
    } else {
      JoinTextsSnoc(m, next);
    }
  }

  /** Merging keeps every text, in order: joining the merged texts gives
      the same string as joining the original ones. */
  lemma {:induction false} MergeKeepsText(hs: seq<Heading>)
    ensures JoinTexts(Merge(hs)) == JoinTexts(hs)
    decreases |hs|
  {
    if hs != [] {
      var init := hs[..|hs| - 1];
      var next := hs[|hs| - 1];
      assert hs == init + [next];
      if init != [] {
        MergeKeepsText(init);
        MergeStepText(Merge(init), next);
        JoinTextsSnoc(init, next);
      }
    }
  }

  /** The level, page and pass of a heading. */
  function GroupOf(h: Heading): (nat, int, bool) { (h.level, h.page, h.numbered) }

  /** A list with each run of equal neighbours kept once. */
  function Squash<T(==)>(xs: seq<T>): (r: seq<T>)
    ensures xs != [] ==> r != [] && r[|r| - 1] == xs[|xs| - 1]
  {
    if xs == [] then []
    else
      var s := Squash(xs[..|xs| - 1]);
      if s != [] && s[|s| - 1] == xs[|xs| - 1] then s else s + [xs[|xs| - 1]]
  }

  lemma SquashSnoc<T>(xs: seq<T>, x: T)
    ensures var s := Squash(xs);
      Squash(xs + [x]) == if s != [] && s[|s| - 1] == x then s else s + [x]
  {
    var ys := xs + [x];
    assert ys[..|ys| - 1] == xs && ys[|ys| - 1] == x;
    var s := Squash(xs);
    assert Squash(ys) == if s != [] && s[|s| - 1] == ys[|ys| - 1] then s else s + [ys[|ys| - 1]];
  }

  /** Headings that agree pointwise on level, page and pass. */
  lemma SameGroups(r: seq<Heading>, m: seq<Heading>)
    requires |r| == |m| && forall i :: 0 <= i < |r| ==> SameGroup(r[i], m[i])
    ensures MapSeq(r, GroupOf) == MapSeq(m, GroupOf)
  {
  }

  /** One merge step collapses the groups as Squash does. */
  lemma MergeStepGroups(m: seq<Heading>, next: Heading)
    ensures var g := MapSeq(m, GroupOf);
      MapSeq(MergeStep(m, next), GroupOf) == if g != [] && g[|g| - 1] == GroupOf(next) then g else g + [GroupOf(next)]
  {
    if m != [] && SameGroup(m[|m| - 1], next) {
      SameGroups(m[..|m| - 1] + [Absorb(m[|m| - 1], next)], m);
    } else {
      MapSeqAppend(m, next, GroupOf);
    }
  }

  /** The merged headings are the runs of equal level, page and pass: one
      heading per run, in order. */
  lemma {:induction false} MergeGroups(hs: seq<Heading>)
    ensures MapSeq(Merge(hs), GroupOf) == Squash(MapSeq(hs, GroupOf))
    decreases |hs|
  {
    if hs != [] {
      var init := hs[..|hs| - 1];
      var next := hs[|hs| - 1];
      LastSplit(hs);
      MergeGroups(init);
      assert Merge(hs) == MergeStep(Merge(init), next);
      var x := GroupOf(next);
      MapSeqAppend(init, next, GroupOf);
      assert MapSeq(hs, GroupOf) == MapSeq(init, GroupOf) + [x];
      SquashSnoc(MapSeq(init, GroupOf), x);
      MergeStepGroups(Merge(init), next);
      var g := MapSeq(Merge(init), GroupOf);
      assert MapSeq(Merge(hs), GroupOf) == if g != [] && g[|g| - 1] == x then g else g + [x];
    }
  }

  /** Squash leaves no two equal neighbours. */
  lemma {:induction false} SquashSeparates<T>(xs: seq<T>)
    ensures forall i :: 0 <= i < |Squash(xs)| - 1 ==> Squash(xs)[i] != Squash(xs)[i + 1]
    decreases |xs|
  {
    if xs != [] {
      SquashSeparates(xs[..|xs| - 1]);
    }
  }

  /** No two consecutive merged headings share level, page and pass. */
  lemma MergeSeparatesGroups(hs: seq<Heading>)
    ensures forall i :: 0 <= i < |Merge(hs)| - 1 ==> !SameGroup(Merge(hs)[i], Merge(hs)[i + 1])
  {
    var r := Merge(hs);
    MergeGroups(hs);
    SquashSeparates(MapSeq(hs, GroupOf));
    SeparatedGroups(r, MapSeq(r, GroupOf));
  }

  /** Headings whose groups differ pointwise from their neighbours' are
      never in the same group as them. */
  lemma SeparatedGroups(r: seq<Heading>, g: seq<(nat, int, bool)>)
    requires g == MapSeq(r, GroupOf)
    requires forall i :: 0 <= i < |g| - 1 ==> g[i] != g[i + 1]
    ensures forall i :: 0 <= i < |r| - 1 ==> !SameGroup(r[i], r[i + 1])
  {
    forall i | 0 <= i < |r| - 1 ensures !SameGroup(r[i], r[i + 1]) {
      assert g[i] != g[i + 1];
    }
  }

  /** Pages never go down along the headings. */
  predicate PageOrdered(hs: seq<Heading>) {
    forall i, j :: 0 <= i < j < |hs| ==> hs[i].page <= hs[j].page
  }

  /** Merging keeps pages in order. */
  lemma {:induction false} MergeKeepsPageOrder(hs: seq<Heading>)
    requires PageOrdered(hs)
    ensures PageOrdered(Merge(hs))
    ensures hs != [] ==> forall i :: 0 <= i < |Merge(hs)| ==> Merge(hs)[i].page <= hs[|hs| - 1].page
    decreases |hs|
  {
    if hs != [] {
      var init := hs[..|hs| - 1];
      var next := hs[|hs| - 1];
      assert PageOrdered(init) by {
        forall i, j | 0 <= i < j < |init| ensures init[i].page <= init[j].page {
          assert init[i] == hs[i] && init[j] == hs[j];
        }
      }
      MergeKeepsPageOrder(init);
      var m := Merge(init);
      var r := Merge(hs);
      assert r == MergeStep(m, next);
      MergeStepPrefix(m, next);
      if init != [] {
        assert init[|init| - 1] == hs[|hs| - 2];
      }
      PageOrderStep(m, r, next);
    }
  }

  /** Replacing or adding a last heading on the page of `next`, after
      headings on no later page, keeps pages in order. */
  lemma PageOrderStep(m: seq<Heading>, r: seq<Heading>, next: Heading)
    requires PageOrdered(m) && forall i :: 0 <= i < |m| ==> m[i].page <= next.page
    requires r != [] && |r| - 1 <= |m| && r[|r| - 1].page == next.page
    requires forall i :: 0 <= i < |r| - 1 ==> r[i] == m[i]
    ensures PageOrdered(r) && forall i :: 0 <= i < |r| ==> r[i].page <= next.page
  {
    forall i, j | 0 <= i < j < |r| ensures r[i].page <= r[j].page {
      if j < |r| - 1 {
        assert r[i] == m[i] && r[j] == m[j];
      } else {
        assert r[i] == m[i];
      }
    }
    forall i | 0 <= i < |r| - 1 ensures r[i].page <= next.page {
      assert r[i] == m[i];
    }
  }

  /** A merge step changes at most the last merged heading. */
  lemma MergeStepPrefix(m: seq<Heading>, next: Heading)
    ensures |MergeStep(m, next)| - 1 <= |m|
    ensures forall i :: 0 <= i < |MergeStep(m, next)| - 1 ==> MergeStep(m, next)[i] == m[i]
  {
  }

  // ---------------------------------------------------------------------
  // The filter

  /** Long enough, not a number and not a form label. */
  predicate Kept(t: string) {
    |t| > 2 && !IsNumericStr(t) && !EndsWith(t, ":")
  }

  /** `final_headings` built from the merged headings, given the lower-cased
      texts already `seen`. The cleaning, the test and the key are
      parameters so that the facts below hold for any of them; the source's
      are `Strip`, `Kept` and `Lower`. */
  function Unseen(hs: seq<Heading>, clean: string -> string, keep: string -> bool, key: string -> string, seen: set<string>): seq<Entry>
    decreases |hs|
  {
    if hs == [] then []
    else
      var t := clean(hs[0].text);
      if keep(t) && key(t) !in seen then [Entry(hs[0].level, t, hs[0].page)] + Unseen(hs[1..], clean, keep, key, seen + {key(t)})
      else Unseen(hs[1..], clean, keep, key, seen)
  }

  /** The filter pass over the merged headings. */
  function FinalFrom(hs: seq<Heading>): seq<Entry> {
    Unseen(hs, Strip, Kept, Lower, {})
  }

  /** The entry a heading gives, if any, given the keys seen so far. */
  function Accepted(h: Heading, clean: string -> string, keep: string -> bool, key: string -> string, seen: set<string>): seq<Entry> {
    var t := clean(h.text);
    if keep(t) && key(t) !in seen then [Entry(h.level, t, h.page)] else []
  }

  /** The keys seen after a heading. */
  function SeenAfter(h: Heading, clean: string -> string, keep: string -> bool, key: string -> string, seen: set<string>): set<string> {
    var t := clean(h.text);
    if keep(t) && key(t) !in seen then seen + {key(t)} else seen
  }

  lemma UnseenStep(hs: seq<Heading>, i: nat, clean: string -> string, keep: string -> bool, key: string -> string, seen: set<string>)
    requires i < |hs|
    ensures Unseen(hs[i..], clean, keep, key, seen) ==
      Accepted(hs[i], clean, keep, key, seen) + Unseen(hs[i + 1..], clean, keep, key, SeenAfter(hs[i], clean, keep, key, seen))
  {
    assert hs[i..][1..] == hs[i + 1..];
  }

  /** One turn of the filter loop. */
  method FilterOne(h: Heading, clean: string -> string, keep: string -> bool, key: string -> string, final: seq<Entry>, seen: set<string>)
    returns (final': seq<Entry>, seen': set<string>)
    ensures final' == final + Accepted(h, clean, keep, key, seen)
    ensures seen' == SeenAfter(h, clean, keep, key, seen)
  {
    final', seen' := final, seen;
    var text := clean(h.text);
    if keep(text) && key(text) !in seen {
      final' := final + [Entry(h.level, text, h.page)];
      seen' := seen + {key(text)};
    }
  }

  /** The filter loop over the merged headings: `text.strip()`, the tests
      of `Kept` and `text.lower()` as the key of `seen`. */
  method Finalize(temp: seq<Heading>) returns (final: seq<Entry>)
    ensures final == FinalFrom(temp)
  {
    final := [];
    var seen: set<string> := {};
    for i := 0 to |temp|
      invariant final + Unseen(temp[i..], Strip, Kept, Lower, seen) == FinalFrom(temp)
    {
      UnseenStep(temp, i, Strip, Kept, Lower, seen);
      AppendAssoc(final, Accepted(temp[i], Strip, Kept, Lower, seen),
        Unseen(temp[i + 1..], Strip, Kept, Lower, SeenAfter(temp[i], Strip, Kept, Lower, seen)));
      final, seen := FilterOne(temp[i], Strip, Kept, Lower, final, seen);
    }
  }

  /** Every entry is a heading with its text cleaned; that text passes the
      test and its key is new. */
  lemma {:induction false} UnseenSource(hs: seq<Heading>, clean: string -> string, keep: string -> bool, key: string -> string, seen: set<string>, e: Entry)
    requires e in Unseen(hs, clean, keep, key, seen)
    ensures keep(e.text) && key(e.text) !in seen
    ensures exists h :: h in hs && e == Entry(h.level, clean(h.text), h.page)
    decreases |hs|
  {
    var t := clean(hs[0].text);
    var seen' := if keep(t) && key(t) !in seen then seen + {key(t)} else seen;
    if !(keep(t) && key(t) !in seen && e == Entry(hs[0].level, t, hs[0].page)) {
      UnseenSource(hs[1..], clean, keep, key, seen', e);
      var h :| h in hs[1..] && e == Entry(h.level, clean(h.text), h.page);
    }
  }

  /** Every final entry is a merged heading with its text stripped, and
      that text is trimmed, longer than two characters, not numeric and
      not ending in ':'. */
  lemma FinalShape(hs: seq<Heading>, e: Entry)
    requires e in FinalFrom(hs)
    ensures Trimmed(e.text) && |e.text| > 2 && !IsNumericStr(e.text) && !EndsWith(e.text, ":")
    ensures exists h :: h in hs && e == Entry(h.level, Strip(h.text), h.page)
  {
    UnseenSource(hs, Strip, Kept, Lower, {}, e);
    var h :| h in hs && e == Entry(h.level, Strip(h.text), h.page);
    StripTrimmed(h.text);
  }

  predicate DistinctKeys(out: seq<Entry>, key: string -> string) {
    forall i, j :: 0 <= i < j < |out| ==> key(out[i].text) != key(out[j].text)
  }

  /** No two entries share a key. */
  lemma {:induction false} UnseenDistinct(hs: seq<Heading>, clean: string -> string, keep: string -> bool, key: string -> string, seen: set<string>)
    ensures DistinctKeys(Unseen(hs, clean, keep, key, seen), key)
    decreases |hs|
  {
    if hs != [] {
      var t := clean(hs[0].text);
      if keep(t) && key(t) !in seen {
        var seen' := seen + {key(t)};
        var rest := Unseen(hs[1..], clean, keep, key, seen');
        UnseenDistinct(hs[1..], clean, keep, key, seen');
        var r := Unseen(hs, clean, keep, key, seen);
        forall i, j | 0 <= i < j < |r| ensures key(r[i].text) != key(r[j].text) {
          assert r[j] == rest[j - 1];
          UnseenSource(hs[1..], clean, keep, key, seen', rest[j - 1]);
          if i > 0 { assert r[i] == rest[i - 1]; }
        }
      } else {
        UnseenDistinct(hs[1..], clean, keep, key, seen);
        assert Unseen(hs, clean, keep, key, seen) == Unseen(hs[1..], clean, keep, key, seen);
      }
    }
  }

  /** No two final entries have the same lower-cased text. */
  lemma FinalDistinct(hs: seq<Heading>)
    ensures DistinctKeys(FinalFrom(hs), Lower)
  {
    UnseenDistinct(hs, Strip, Kept, Lower, {});
  }

  /** A heading whose cleaned text passes the test has its key among the
      entries' keys, or among those seen before. */
  lemma {:induction false} UnseenCovers(hs: seq<Heading>, clean: string -> string, keep: string -> bool, key: string -> string, seen: set<string>, k: nat)
    requires k < |hs| && keep(clean(hs[k].text))
    ensures key(clean(hs[k].text)) in seen ||
      exists e :: e in Unseen(hs, clean, keep, key, seen) && key(e.text) == key(clean(hs[k].text))
    decreases |hs|
  {
    var t := clean(hs[0].text);
    var x := key(clean(hs[k].text));
    if keep(t) && key(t) !in seen {
      var first := Entry(hs[0].level, t, hs[0].page);
      assert first in Unseen(hs, clean, keep, key, seen);
      if k > 0 && x != key(t) {
        assert hs[1..][k - 1] == hs[k];
        UnseenCovers(hs[1..], clean, keep, key, seen + {key(t)}, k - 1);
      }
    } else if k > 0 {
      assert hs[1..][k - 1] == hs[k];
      UnseenCovers(hs[1..], clean, keep, key, seen, k - 1);
    }
  }

  /** A merged heading whose stripped text passes the tests reaches the
      outline: an entry has the same lower-cased text. */
  lemma FinalCovers(hs: seq<Heading>, k: nat)
    requires k < |hs| && Kept(Strip(hs[k].text))
    ensures exists e :: e in FinalFrom(hs) && Lower(e.text) == Lower(Strip(hs[k].text))
  {
    UnseenCovers(hs, Strip, Kept, Lower, {}, k);
  }

  /** Filtering keeps pages in order. */
  lemma {:induction false} UnseenKeepsPageOrder(hs: seq<Heading>, clean: string -> string, keep: string -> bool, key: string -> string, seen: set<string>)
    requires forall i, j :: 0 <= i < j < |hs| ==> hs[i].page <= hs[j].page
    ensures PagesNonDecreasing(Unseen(hs, clean, keep, key, seen))
    decreases |hs|
  {
    if hs != [] {
      var t := clean(hs[0].text);
      var seen' := if keep(t) && key(t) !in seen then seen + {key(t)} else seen;
      UnseenKeepsPageOrder(hs[1..], clean, keep, key, seen');
      var rest := Unseen(hs[1..], clean, keep, key, seen');
      forall e | e in rest ensures hs[0].page <= e.page {
        UnseenSource(hs[1..], clean, keep, key, seen', e);
      }
    }
  }

  // ---------------------------------------------------------------------
  // The title

  predicate IsH1(e: Entry) { e.level == 1 }

  function EntryText(e: Entry): string { e.text }

  /** `h1_headings`: the texts of the H1 entries, in outline order. */
  function H1Texts(final: seq<Entry>): seq<string> {
    MapSeq(Filter(final, IsH1), EntryText)
  }

  /** `min(texts, key=len)`: the position of the first of the shortest. */
  function Shortest(ts: seq<string>): (i: nat)
    requires ts != []
    ensures i < |ts|
    ensures forall j :: 0 <= j < |ts| ==> |ts[i]| <= |ts[j]|
    ensures forall j :: 0 <= j < i ==> |ts[j]| > |ts[i]|
  {
    if |ts| == 1 then 0
    else
      var k := Shortest(ts[..|ts| - 1]);
      assert forall j :: 0 <= j < |ts| - 1 ==> ts[..|ts| - 1][j] == ts[j];
      if |ts[|ts| - 1]| < |ts[k]| then |ts| - 1 else k
  }

  predicate OnFirstPage(s: FontSpan) { s.page == 0 }

  /** `reverse=True` on the size. */
  function SizeKey(s: FontSpan): seq<int> { [-s.size] }

  /** `basename.replace('.pdf', '')`: every occurrence removed, scanning
      from the left without overlaps. */
  function ReplacePdf(name: string): (r: string)
    ensures |r| <= |name|
    decreases |name|
  {
    if |name| < 4 then name
    else if name[..4] == ".pdf" then ReplacePdf(name[4..])
    else [name[0]] + ReplacePdf(name[1..])
  }

  /** The title: the shortest H1 text, else the text of the first of the
      largest spans on the first page, else the file name without ".pdf". */
  function TitleOf(name: string, final: seq<Entry>, spans: seq<FontSpan>): string {
    var h1 := H1Texts(final);
    if h1 != [] then h1[Shortest(h1)]
    else
      var first := Filter(spans, OnFirstPage);
      if first != [] then SortBy(first, SizeKey)[0].text else ReplacePdf(name)
  }

  /** A name that does not contain ".pdf" is kept as it is. */
  lemma {:induction false} ReplacePdfKeeps(name: string)
    requires !Contains(name, ".pdf")
    ensures ReplacePdf(name) == name
    decreases |name|
  {
    if |name| >= 4 {
      assert !StartsWith(name, ".pdf");
      ReplacePdfKeeps(name[1..]);
      assert name == [name[0]] + name[1..];
    }
  }

  /** The extension is cut from a stem that does not contain ".pdf". */
  lemma {:induction false} ReplacePdfExtension(stem: string)
    requires !Contains(stem, ".pdf")
    ensures ReplacePdf(stem + ".pdf") == stem
    decreases |stem|
  {
    var name := stem + ".pdf";
    if stem == [] {
      assert name == ".pdf" && name[4..] == [];
    } else {
      assert name[..4] != ".pdf" by {
        if |stem| >= 4 {
          assert !StartsWith(stem, ".pdf");
          assert name[..4] == stem[..4];
        } else {
          assert name[|stem|] == '.';
          assert ".pdf"[|stem|] != '.';
        }
      }
      assert name[1..] == stem[1..] + ".pdf";
      ReplacePdfExtension(stem[1..]);
      assert stem == [stem[0]] + stem[1..];
    }
  }

  /** With an H1 entry, the title is the first of the shortest H1 texts. */
  lemma TitleFromH1(name: string, final: seq<Entry>, spans: seq<FontSpan>)
    requires H1Texts(final) != []
    ensures var h1 := H1Texts(final);
      exists i :: 0 <= i < |h1| && TitleOf(name, final, spans) == h1[i] &&
        (forall j :: 0 <= j < |h1| ==> |h1[i]| <= |h1[j]|) &&
        (forall j :: 0 <= j < i ==> |h1[j]| > |h1[i]|)
  {
    var h1 := H1Texts(final);
    var i := Shortest(h1);
    assert TitleOf(name, final, spans) == h1[i];
  }

  /** The H1 texts are the texts of the H1 entries. */
  lemma H1TextsSource(final: seq<Entry>, t: string)
    requires t in H1Texts(final)
    ensures exists e :: e in final && e.level == 1 && e.text == t
  {
    var f := Filter(final, IsH1);
    var i :| 0 <= i < |H1Texts(final)| && H1Texts(final)[i] == t;
    assert f[i] in final;
  }

  /** Sorting spans by size, largest first, puts first the first of the
      largest. */
  lemma LargestFirst(spans: seq<FontSpan>) returns (i: nat)
    requires spans != []
    ensures i < |spans| && SortBy(spans, SizeKey)[0] == spans[i]
    ensures forall j :: 0 <= j < |spans| ==> spans[j].size <= spans[i].size
    ensures forall j :: 0 <= j < i ==> spans[j].size < spans[i].size
  {
    SortByHead(spans, SizeKey);
    var top := SortBy(spans, SizeKey)[0];
    i :| 0 <= i < |spans| && spans[i] == top && forall j :: 0 <= j < i ==> SizeKey(spans[j]) != SizeKey(spans[i]);
    forall j | 0 <= j < |spans| ensures spans[j].size <= spans[i].size {
      assert LexLe(SizeKey(top), SizeKey(spans[j]));
      LexLeSingle(-top.size, -spans[j].size);
    }
  }

  /** With no H1 entry, the title is the text of the first of the largest
      spans on the first page. */
  lemma TitleFromFirstPage(name: string, final: seq<Entry>, spans: seq<FontSpan>)
    requires H1Texts(final) == [] && Filter(spans, OnFirstPage) != []
    ensures var first := Filter(spans, OnFirstPage);
      exists i :: 0 <= i < |first| && TitleOf(name, final, spans) == first[i].text &&
        (forall j :: 0 <= j < |first| ==> first[j].size <= first[i].size) &&
        (forall j :: 0 <= j < i ==> first[j].size < first[i].size)
  {
    var i := LargestFirst(Filter(spans, OnFirstPage));
  }

  /** With neither, the title is the file name with ".pdf" removed. */
  lemma TitleFromName(name: string, final: seq<Entry>, spans: seq<FontSpan>)
    requires H1Texts(final) == [] && forall i :: 0 <= i < |spans| ==> spans[i].page != 0
    ensures TitleOf(name, final, spans) == ReplacePdf(name)
  {
  }

  // ---------------------------------------------------------------------
  // extract_headings_from_pdf

  /** A PDF as the extraction sees it: its file name and its pages. */
  datatype Document = Document(name: string, pages: seq<Page>)

  /** The returned dictionary. */
  datatype Outline = Outline(title: string, outline: seq<Entry>)

  function Extracted(doc: Document): Outline {
    var spans := FontSpans(doc.pages);
    var headings := SortedHeadings(NumberedPass(doc.pages), FontPass(spans));
    var final := FinalFrom(Merge(headings));
    Outline(TitleOf(doc.name, final, spans), final)
  }

  /** `extract_headings_from_pdf`, after the file is opened. */
  method ExtractHeadings(doc: Document) returns (r: Outline)
    ensures r == Extracted(doc)
  {
    var numbered := CollectNumbered(doc.pages);
    var spans := CollectFontSpans(doc.pages);
    var font := FontHeadings(spans);
    var headings := SortBy(numbered + font, PageKey);
    var temp := MergeRuns(headings);
    var final := Finalize(temp);
    var title := ReplacePdf(doc.name);
    var h1 := H1Texts(final);
    if h1 != [] {
      title := h1[Shortest(h1)];
    } else {
      var first := SortBy(Filter(spans, OnFirstPage), SizeKey);
      if first != [] {
        title := first[0].text;
      }
    }
    r := Outline(title, final);
  }

  /** Squash keeps only elements of its input. */
  lemma {:induction false} SquashMembers<T>(xs: seq<T>, x: T)
    requires x in Squash(xs)
    ensures x in xs
    decreases |xs|
  {
    var init := xs[..|xs| - 1];
    if x in Squash(init) {
      SquashMembers(init, x);
      assert x in init;
    }
  }

  /** Every merged heading has the level, page and pass of a heading. */
  lemma MergeSource(hs: seq<Heading>, h: Heading)
    requires h in Merge(hs)
    ensures exists g :: g in hs && SameGroup(h, g)
  {
    var r := Merge(hs);
    var i :| 0 <= i < |r| && r[i] == h;
    MergeGroups(hs);
    assert GroupOf(h) == MapSeq(r, GroupOf)[i];
    SquashMembers(MapSeq(hs, GroupOf), GroupOf(h));
    var j :| 0 <= j < |hs| && MapSeq(hs, GroupOf)[j] == GroupOf(h);
    assert SameGroup(h, hs[j]);
  }

  /** Every heading of either pass has a level from H1 to H6 and the page
      of a page of the document. */
  lemma HeadingShape(pages: seq<Page>, h: Heading)
    requires h in NumberedPass(pages) + FontPass(FontSpans(pages))
    ensures 1 <= h.level <= 6 && 0 <= h.page < |pages|
  {
    var spans := FontSpans(pages);
    if h in NumberedPass(pages) {
      NumberedPassShape(pages, h);
    } else {
      FontPassShape(spans, h);
      FontPassSource(spans, h);
      var i :| 0 <= i < |spans| && h.page == spans[i].page;
      FontSpanShape(pages, spans[i]);
    }
  }

  /** The outline: every text is trimmed, longer than two characters, not
      numeric and not ending in ':'; levels are H1 to H6; pages are pages
      of the document and never go down; no two texts are equal once
      lower-cased. */
  lemma OutlineShape(doc: Document)
    ensures var out := Extracted(doc).outline;
      PagesNonDecreasing(out) && DistinctKeys(out, Lower) &&
      forall e :: e in out ==>
        Trimmed(e.text) && |e.text| > 2 && !IsNumericStr(e.text) && !EndsWith(e.text, ":") &&
        1 <= e.level <= 6 && 0 <= e.page < |doc.pages|
  {
    var all := NumberedPass(doc.pages) + FontPass(FontSpans(doc.pages));
    var sorted := SortBy(all, PageKey);
    var merged := Merge(sorted);
    SortedHeadingsPages(NumberedPass(doc.pages), FontPass(FontSpans(doc.pages)));
    MergeKeepsPageOrder(sorted);
    UnseenKeepsPageOrder(merged, Strip, Kept, Lower, {});
    FinalDistinct(merged);
    forall e | e in FinalFrom(merged)
      ensures Trimmed(e.text) && |e.text| > 2 && !IsNumericStr(e.text) && !EndsWith(e.text, ":")
      ensures 1 <= e.level <= 6 && 0 <= e.page < |doc.pages|
    {
      FinalShape(merged, e);
      var h :| h in merged && e == Entry(h.level, Strip(h.text), h.page);
      MergeSource(sorted, h);
      var g :| g in sorted && SameGroup(h, g);
      assert g in multiset(all);
      HeadingShape(doc.pages, g);
    }
  }
}
