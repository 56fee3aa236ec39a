// The parts that process_pdfs.py and 1A/process_pdfs.py share: their
// clean_text, `str.split('\n')`, the ATX heading test applied to every
// line of a page converted to Markdown, the table-of-contents entries and
// the fallback chain of get_best_title. The two files differ in one
// detail of clean_text, which is the `curly` parameter here.

module MarkdownOutline {
  import opened Common
  import opened Text
  import opened Sorting
  import opened Stats

  // ---------------------------------------------------------------------
  // clean_text

  const EnDash: char := '\U{2013}'
  const LeftQuote: char := '\U{201C}'
  const RightQuote: char := '\U{201D}'

  /** The characters `[\*_`]` that clean_text deletes. */
  predicate IsMarker(c: char) { c == '*' || c == '_' || c == '`' }

  predicate NotMarker(c: char) { !IsMarker(c) }

  /** The replacements of clean_text: the en dash becomes '-', and, with
      `curly` (1A/process_pdfs.py), both curly double quotes become '"'.
      process_pdfs.py replaces '"' by '"', which changes nothing. */
  function Standard(c: char, curly: bool): char {
    if c == EnDash then '-'
    else if curly && (c == LeftQuote || c == RightQuote) then '"'
    else c
  }

  function Standardise(s: string, curly: bool): (r: string)
    ensures |r| == |s| && forall i :: 0 <= i < |s| ==> r[i] == Standard(s[i], curly)
  {
    seq(|s|, i requires 0 <= i < |s| => Standard(s[i], curly))
  }

  /** A character that clean_text leaves as it is. */
  predicate CleanChar(c: char, curly: bool) {
    !IsMarker(c) && c != EnDash && (curly ==> c != LeftQuote && c != RightQuote)
  }

  predicate CleanChars(s: string, curly: bool) {
    forall i :: 0 <= i < |s| ==> CleanChar(s[i], curly)
  }

  /** clean_text: "" for empty input; otherwise delete the Markdown
      markers, replace the dash (and quotes), collapse white-space runs to
      one space and strip. */
  function Clean(text: string, curly: bool): (r: string)
    ensures Collapsed(r) && CleanChars(r, curly)
  {
    if text == [] then []
    else
      var s := Standardise(Filter(text, NotMarker), curly);
      assert CleanChar(' ', curly);
      CollapseKeeps(s, c => CleanChar(c, curly));
      CollapseWhitespace(s)
  }

  lemma {:induction false} FilterAll<T>(s: seq<T>, p: T -> bool)
    requires forall i :: 0 <= i < |s| ==> p(s[i])
    ensures Filter(s, p) == s
    decreases |s|
  {
    if s != [] {
      FilterAll(s[..|s| - 1], p);
    }
  }

  /** Cleaning a cleaned text changes nothing. */
  lemma CleanIdempotent(text: string, curly: bool)
    ensures Clean(Clean(text, curly), curly) == Clean(text, curly)
  {
    var r := Clean(text, curly);
    if r != [] {
      FilterAll(r, NotMarker);
      assert Standardise(r, curly) == r;
      CollapsedFixpoint(r);
    }
  }

  // ---------------------------------------------------------------------
  // str.split('\n')

  predicate NoNewline(s: string) { forall i :: 0 <= i < |s| ==> s[i] != '\n' }

  /** `s.split('\n')`: the pieces between newlines, at least one. */
  function SplitLines(s: string): (lines: seq<string>)
    ensures |lines| >= 1
    ensures forall k :: 0 <= k < |lines| ==> NoNewline(lines[k])
    decreases |s|
  {
    var n := RunFrom(s, 0, NotNewline);
    if n == |s| then [s] else [s[..n]] + SplitLines(s[n + 1..])
  }

  function JoinLines(lines: seq<string>): string
    requires |lines| >= 1
  {
    if |lines| == 1 then lines[0] else lines[0] + "\n" + JoinLines(lines[1..])
  }

  /** Joining the pieces with newlines gives the text back. */
  lemma {:induction false} SplitJoin(s: string)
    ensures JoinLines(SplitLines(s)) == s
    decreases |s|
  {
    var n := RunFrom(s, 0, NotNewline);
    if n < |s| {
      var rest := SplitLines(s[n + 1..]);
      var lines := [s[..n]] + rest;
      assert SplitLines(s) == lines;
      assert lines[0] == s[..n] && lines[1..] == rest;
      SplitJoin(s[n + 1..]);
      assert JoinLines(lines) == s[..n] + "\n" + s[n + 1..];
      assert s == s[..n] + "\n" + s[n + 1..];
    }
  }

  // ---------------------------------------------------------------------
  // `re.match(r'^(#+)\s+(.*)', line.strip())`

  predicate IsHash(c: char) { c == '#' }

  /** A match: the number of '#' and the text of `(.*)`. */
  datatype Atx = Atx(hashes: nat, content: string)

  /** The '#' run, at least one white-space character, then everything up
      to the first newline. */
  function AtxMatch(line: string): (m: Option<Atx>)
    ensures m.Some? ==> m.value.hashes > 0 && NoNewline(m.value.content)
  {
    AtxOf(Strip(line))
  }

  /** The match on the stripped line `t`. */
  function AtxOf(t: string): (m: Option<Atx>)
    ensures m.Some? ==> m.value.hashes > 0 && NoNewline(m.value.content)
  {
    var n := RunFrom(t, 0, IsHash);
    var w := RunFrom(t, n, IsSpace);
    if n > 0 && w > 0 then
      RunHasNoNewline(t, n + w);
      Some(Atx(n, t[n + w..n + w + RunFrom(t, n + w, NotNewline)]))
    else None
  }

  /** The text up to the first newline holds none. */
  lemma RunHasNoNewline(t: string, i: nat)
    requires i <= |t|
    ensures NoNewline(t[i..i + RunFrom(t, i, NotNewline)])
  {
    var r := t[i..i + RunFrom(t, i, NotNewline)];
    forall k | 0 <= k < |r| ensures r[k] != '\n' {
      assert r[k] == t[i + k] && NotNewline(t[i + k]);
    }
  }

  /** One Markdown line: its heading, if it is one and its cleaned text is
      at least 4 characters long and holds no "---". */
  function LineHeading(line: string, page: int, curly: bool): Option<Entry> {
    match AtxMatch(line)
    case None => None
    case Some(m) =>
      var text := Clean(m.content, curly);
      if |text| < 4 || Contains(text, "---") then None
      else Some(Entry(Min(m.hashes, 6), text, page))
  }

  function Listed(h: Option<Entry>): seq<Entry> {
    if h.Some? then [h.value] else []
  }

  /** The headings of a page's lines, in line order. */
  function HeadingsOfLines(lines: seq<string>, page: int, curly: bool): seq<Entry> {
    if lines == [] then []
    else HeadingsOfLines(lines[..|lines| - 1], page, curly) + Listed(LineHeading(lines[|lines| - 1], page, curly))
  }

  /** extract_markdown_headings / extract_headings_from_markdown */
  method ExtractMarkdownHeadings(markdown: string, page: int, curly: bool) returns (headings: seq<Entry>)
    ensures headings == HeadingsOfLines(SplitLines(markdown), page, curly)
  {
    var lines := SplitLines(markdown);
    headings := [];
    for i := 0 to |lines|
      invariant headings == HeadingsOfLines(lines[..i], page, curly)
    {
      var h := LineHeading(lines[i], page, curly);
      HeadingsOfLinesSnoc(lines, i, page, curly);
      if h.Some? {
        headings := headings + [h.value];
      }
    }
    assert lines[..|lines|] == lines;
  }

  lemma HeadingsOfLinesSnoc(lines: seq<string>, i: nat, page: int, curly: bool)
    requires i < |lines|
    ensures HeadingsOfLines(lines[..i + 1], page, curly) ==
      HeadingsOfLines(lines[..i], page, curly) + Listed(LineHeading(lines[i], page, curly))
  {
    assert lines[..i + 1][..i] == lines[..i];
  }

  predicate GoodMarkdownHeading(e: Entry, page: int) {
    1 <= e.level <= 6 && |e.text| >= 4 && !Contains(e.text, "---") && Collapsed(e.text) && e.page == page
  }

  /** Levels H1..H6, texts of at least 4 cleaned characters without "---",
      all on the given page. */
  lemma {:induction false} HeadingsOfLinesShape(lines: seq<string>, page: int, curly: bool)
    ensures forall k :: 0 <= k < |HeadingsOfLines(lines, page, curly)| ==>
      GoodMarkdownHeading(HeadingsOfLines(lines, page, curly)[k], page)
    ensures |HeadingsOfLines(lines, page, curly)| <= |lines|
    decreases |lines|
  {
    if lines != [] {
      HeadingsOfLinesShape(lines[..|lines| - 1], page, curly);
    }
  }

  /** The headings of consecutive lines come out in line order. */
  lemma {:induction false} HeadingsOfLinesConcat(a: seq<string>, b: seq<string>, page: int, curly: bool)
    ensures HeadingsOfLines(a + b, page, curly) == HeadingsOfLines(a, page, curly) + HeadingsOfLines(b, page, curly)
    decreases |b|
  {
    if b == [] {
      assert a + b == a;
    } else {
      var b0 := b[..|b| - 1];
      assert (a + b)[..|a + b| - 1] == a + b0;
      assert (a + b)[|a + b| - 1] == b[|b| - 1];
      HeadingsOfLinesConcat(a, b0, page, curly);
      AppendAssoc(HeadingsOfLines(a, page, curly), HeadingsOfLines(b0, page, curly), Listed(LineHeading(b[|b| - 1], page, curly)));
    }
  }

  function Hashes(n: nat): (r: string)
    ensures |r| == n && forall i :: 0 <= i < n ==> r[i] == '#'
  {
    seq(n, i => '#')
  }

  /** A '#' run that starts a text stops where the hashes do. */
  lemma HashRun(n: nat, u: string)
    requires u != [] && u[0] != '#'
    ensures RunFrom(Hashes(n) + u, 0, IsHash) == n
  {
    var t := Hashes(n) + u;
    assert forall k :: 0 <= k < n ==> t[k] == Hashes(n)[k];
    assert t[n] == u[0];
    RunFromExact(t, 0, n, IsHash);
  }

  /** " text": one white-space character, then the text to its end. */
  lemma SpacedText(g: string)
    requires g != [] && !IsSpace(g[0]) && NoNewline(g)
    ensures RunFrom(" " + g, 0, IsSpace) == 1 && RunFrom(" " + g, 1, NotNewline) == |g|
    ensures (" " + g)[1..] == g
  {
    var u := " " + g;
    assert u[1] == g[0];
    RunFromExact(u, 0, 1, IsSpace);
    assert forall k :: 1 <= k < |u| ==> u[k] == g[k - 1];
    RunFromExact(u, 1, |u|, NotNewline);
  }

  /** The runs and the slice AtxMatch looks at, on "#...# text". */
  lemma HashLine(n: nat, g: string)
    requires g != [] && !IsSpace(g[0]) && NoNewline(g)
    ensures var t := Hashes(n) + " " + g;
      RunFrom(t, 0, IsHash) == n && RunFrom(t, n, IsSpace) == 1 &&
      RunFrom(t, n + 1, NotNewline) == |g| && t[n + 1..n + 1 + |g|] == g
  {
    var u := " " + g;
    var t := Hashes(n) + u;
    HashRun(n, u);
    SpacedText(g);
    RunFromShift(Hashes(n), u, 0, IsSpace);
    RunFromShift(Hashes(n), u, 1, NotNewline);
    DropPastPrefix(Hashes(n), u, 1);
    SliceToEnd(t, n + 1, |g|);
    AppendAssoc(Hashes(n), " ", g);
  }

  /** A line whose stripped form is "#...# text" matches with n hashes and
      the whole text. */
  lemma AtxMatchOf(line: string, n: nat, g: string)
    requires n > 0 && g != [] && !IsSpace(g[0]) && NoNewline(g)
    requires Strip(line) == Hashes(n) + " " + g
    ensures AtxMatch(line) == Some(Atx(n, g))
  {
    AtxOfHashLine(n, g);
  }

  lemma AtxOfHashLine(n: nat, g: string)
    requires n > 0 && g != [] && !IsSpace(g[0]) && NoNewline(g)
    ensures AtxOf(Hashes(n) + " " + g) == Some(Atx(n, g))
  {
    HashLine(n, g);
  }

  /** ... and gives level min(n, 6), so seven or more hashes are still
      accepted, as H6. */
  lemma AtxLevelClamped(line: string, n: nat, g: string, page: int, curly: bool)
    requires n > 0 && g != [] && !IsSpace(g[0]) && NoNewline(g)
    requires Strip(line) == Hashes(n) + " " + g
    ensures var text := Clean(g, curly);
      LineHeading(line, page, curly) ==
      (if |text| < 4 || Contains(text, "---") then None else Some(Entry(Min(n, 6), text, page)))
  {
    AtxMatchOf(line, n, g);
  }

  /** A line whose stripped form does not start with "#" and white space
      is never a heading. */
  lemma PlainLineIgnored(line: string, page: int, curly: bool)
    requires Strip(line) == [] || Strip(line)[0] != '#'
    ensures LineHeading(line, page, curly) == None
  {
  }

  /** The headings of every page's Markdown, page by page; page `i` is the
      0-based index. */
  function MarkdownHeadingsOf(pages: seq<Page>, curly: bool): seq<Entry> {
    if pages == [] then []
    else
      var i := |pages| - 1;
      MarkdownHeadingsOf(pages[..i], curly) + HeadingsOfLines(SplitLines(pages[i].markdown), i, curly)
  }

  lemma MarkdownHeadingsSnoc(pages: seq<Page>, i: nat, curly: bool)
    requires i < |pages|
    ensures MarkdownHeadingsOf(pages[..i + 1], curly) ==
      MarkdownHeadingsOf(pages[..i], curly) + HeadingsOfLines(SplitLines(pages[i].markdown), i, curly)
  {
    assert pages[..i + 1][..i] == pages[..i];
  }

  /** The page loop of process_pdf: convert each page, collect its
      headings. */
  method CollectMarkdownHeadings(pages: seq<Page>, curly: bool) returns (all: seq<Entry>)
    ensures all == MarkdownHeadingsOf(pages, curly)
  {
    all := [];
    for i := 0 to |pages|
      invariant all == MarkdownHeadingsOf(pages[..i], curly)
    {
      var headings := ExtractMarkdownHeadings(pages[i].markdown, i, curly);
      MarkdownHeadingsSnoc(pages, i, curly);
      all := all + headings;
    }
    assert pages[..|pages|] == pages;
  }

  /** Every entry is a well-formed Markdown heading of one of the first
      `n` pages. */
  predicate GoodHeadings(hs: seq<Entry>, n: int) {
    forall k :: 0 <= k < |hs| ==> 0 <= hs[k].page < n && GoodMarkdownHeading(hs[k], hs[k].page)
  }

  lemma GoodHeadingsConcat(init: seq<Entry>, last: seq<Entry>, page: nat)
    requires GoodHeadings(init, page)
    requires forall k :: 0 <= k < |last| ==> GoodMarkdownHeading(last[k], page)
    ensures GoodHeadings(init + last, page + 1)
  {
    var hs := init + last;
    forall k | |init| <= k < |hs|
      ensures 0 <= hs[k].page < page + 1 && GoodMarkdownHeading(hs[k], hs[k].page)
    {
      assert hs[k] == last[k - |init|];
    }
  }

  /** Every collected heading is a well-formed Markdown heading of an
      existing page. */
  lemma {:induction false} MarkdownHeadingsWellFormed(pages: seq<Page>, curly: bool)
    ensures GoodHeadings(MarkdownHeadingsOf(pages, curly), |pages|)
    decreases |pages|
  {
    if pages != [] {
      var i := |pages| - 1;
      MarkdownHeadingsWellFormed(pages[..i], curly);
      HeadingsOfLinesShape(SplitLines(pages[i].markdown), i, curly);
      GoodHeadingsConcat(MarkdownHeadingsOf(pages[..i], curly), HeadingsOfLines(SplitLines(pages[i].markdown), i, curly), i);
    }
  }

  /** The collected headings are in page order. */
  lemma {:induction false} MarkdownHeadingsInPageOrder(pages: seq<Page>, curly: bool)
    ensures PagesNonDecreasing(MarkdownHeadingsOf(pages, curly))
    decreases |pages|
  {
    if pages != [] {
      var i := |pages| - 1;
      MarkdownHeadingsInPageOrder(pages[..i], curly);
      MarkdownHeadingsWellFormed(pages[..i], curly);
      HeadingsOfLinesShape(SplitLines(pages[i].markdown), i, curly);
      ConcatPagesNonDecreasing(MarkdownHeadingsOf(pages[..i], curly), HeadingsOfLines(SplitLines(pages[i].markdown), i, curly), i);
    }
  }

  /** Entries on earlier pages followed by entries of one page stay in page
      order. */
  lemma ConcatPagesNonDecreasing(init: seq<Entry>, last: seq<Entry>, page: nat)
    requires PagesNonDecreasing(init) && GoodHeadings(init, page)
    requires forall k :: 0 <= k < |last| ==> GoodMarkdownHeading(last[k], page)
    ensures PagesNonDecreasing(init + last)
  {
    var hs := init + last;
    forall a, b | 0 <= a < b < |hs| ensures hs[a].page <= hs[b].page {
      if b >= |init| {
        assert hs[b] == last[b - |init|];
        if a >= |init| {
          assert hs[a] == last[a - |init|];
        }
      }
    }
  }

  // ---------------------------------------------------------------------
  // Deduplication that keeps the first heading of each key (a dict filled
  // in input order)

  /** The entries whose key was not seen before, in input order. */
  function FirstOccurrences(hs: seq<Entry>, key: Entry -> (string, int), seen: set<(string, int)>): seq<Entry>
    decreases |hs|
  {
    if hs == [] then []
    else if key(hs[0]) in seen then FirstOccurrences(hs[1..], key, seen)
    else [hs[0]] + FirstOccurrences(hs[1..], key, seen + {key(hs[0])})
  }

  /** One step of a dedup loop: the entry at i is kept or skipped. */
  lemma FirstOccurrencesStep(hs: seq<Entry>, i: nat, key: Entry -> (string, int), seen: set<(string, int)>)
    requires i < |hs|
    ensures FirstOccurrences(hs[i..], key, seen) ==
      if key(hs[i]) in seen then FirstOccurrences(hs[i + 1..], key, seen)
      else [hs[i]] + FirstOccurrences(hs[i + 1..], key, seen + {key(hs[i])})
  {
    assert hs[i..][0] == hs[i] && hs[i..][1..] == hs[i + 1..];
  }

  /** The dedup loop over a dict keyed by `key`: the first heading of each
      key, in input order. */
  method KeepFirst(all: seq<Entry>, key: Entry -> (string, int)) returns (unique: seq<Entry>)
    ensures unique == FirstOccurrences(all, key, {})
  {
    var seen: set<(string, int)> := {};
    unique := [];
    for i := 0 to |all|
      invariant unique + FirstOccurrences(all[i..], key, seen) == FirstOccurrences(all, key, {})
    {
      FirstOccurrencesStep(all, i, key, seen);
      var k := key(all[i]);
      if k !in seen {
        AppendAssoc(unique, [all[i]], FirstOccurrences(all[i + 1..], key, seen + {k}));
        seen := seen + {k};
        unique := unique + [all[i]];
      }
    }
    assert all[|all|..] == [];
    assert unique + [] == unique;
  }

  predicate DistinctKeys(out: seq<Entry>, key: Entry -> (string, int)) {
    forall i, j :: 0 <= i < j < |out| ==> key(out[i]) != key(out[j])
  }

  /** No kept key was seen before, and no two kept keys are equal. */
  lemma {:induction false} FirstOccurrencesDistinct(hs: seq<Entry>, key: Entry -> (string, int), seen: set<(string, int)>)
    ensures forall e :: e in FirstOccurrences(hs, key, seen) ==> key(e) !in seen
    ensures DistinctKeys(FirstOccurrences(hs, key, seen), key)
    decreases |hs|
  {
    if hs != [] {
      if key(hs[0]) in seen {
        FirstOccurrencesDistinct(hs[1..], key, seen);
      } else {
        var seen' := seen + {key(hs[0])};
        var rest := FirstOccurrences(hs[1..], key, seen');
        FirstOccurrencesDistinct(hs[1..], key, seen');
        var out := [hs[0]] + rest;
        forall i, j | 0 <= i < j < |out| ensures key(out[i]) != key(out[j]) {
          assert out[j] == rest[j - 1];
          if i > 0 {
            assert out[i] == rest[i - 1];
          } else {
            assert rest[j - 1] in rest;
          }
        }
      }
    }
  }

  /** The keys of a sequence of entries. */
  function Keys(hs: seq<Entry>, key: Entry -> (string, int)): (ks: set<(string, int)>)
    ensures forall k :: 0 <= k < |hs| ==> key(hs[k]) in ks
    decreases |hs|
  {
    if hs == [] then {} else {key(hs[0])} + Keys(hs[1..], key)
  }

  /** Every key of the input that was not seen before is kept, and no other
      key is. */
  lemma {:induction false} FirstOccurrencesKeys(hs: seq<Entry>, key: Entry -> (string, int), seen: set<(string, int)>)
    ensures Keys(FirstOccurrences(hs, key, seen), key) == Keys(hs, key) - seen
    decreases |hs|
  {
    if hs != [] {
      if key(hs[0]) in seen {
        FirstOccurrencesKeys(hs[1..], key, seen);
      } else {
        FirstOccurrencesKeys(hs[1..], key, seen + {key(hs[0])});
        var out := [hs[0]] + FirstOccurrences(hs[1..], key, seen + {key(hs[0])});
        assert out[1..] == FirstOccurrences(hs[1..], key, seen + {key(hs[0])});
      }
    }
  }

  /** Two occurrences of the same element count twice. */
  lemma TwiceInMultiset(s: seq<Entry>, i: nat, j: nat)
    requires i < j < |s| && s[i] == s[j]
    ensures multiset(s)[s[i]] >= 2
  {
    assert s == s[..j] + s[j..];
    assert s[i] == s[..j][i];
    assert s[j] == s[j..][0];
  }

  /** With distinct keys, every element occurs once. */
  lemma DistinctOnce(a: seq<Entry>, p: nat, key: Entry -> (string, int))
    requires DistinctKeys(a, key) && p < |a|
    ensures multiset(a)[a[p]] == 1
  {
    var x := a[p];
    assert a == a[..p] + [x] + a[p + 1..];
    assert x !in a[..p] by {
      forall q | 0 <= q < p ensures a[..p][q] != x {
        assert key(a[q]) != key(a[p]);
      }
    }
    var tail := a[p + 1..];
    assert x !in tail by {
      forall q | 0 <= q < |tail| ensures tail[q] != x {
        assert key(a[p]) != key(a[p + 1 + q]);
      }
    }
  }

  /** Reordering keeps the keys distinct. */
  lemma DistinctKeysPermutation(a: seq<Entry>, b: seq<Entry>, key: Entry -> (string, int))
    requires multiset(a) == multiset(b) && DistinctKeys(a, key)
    ensures DistinctKeys(b, key)
  {
    forall i, j | 0 <= i < j < |b| ensures key(b[i]) != key(b[j]) {
      assert b[i] in multiset(a) && b[j] in multiset(a);
      var p :| 0 <= p < |a| && a[p] == b[i];
      var q :| 0 <= q < |a| && a[q] == b[j];
      if p == q {
        TwiceInMultiset(b, i, j);
        DistinctOnce(a, p, key);
        assert false;
      }
      assert key(a[Min(p, q)]) != key(a[Max(p, q)]);
    }
  }

  /** The keys are those of the elements, whatever their order. */
  lemma {:induction false} KeysMembers(s: seq<Entry>, key: Entry -> (string, int))
    ensures forall k :: k in Keys(s, key) ==> exists x :: x in s && key(x) == k
    decreases |s|
  {
    if s != [] {
      KeysMembers(s[1..], key);
      forall k | k in Keys(s, key) ensures exists x :: x in s && key(x) == k {
        if k != key(s[0]) {
          assert k in Keys(s[1..], key);
          var x :| x in s[1..] && key(x) == k;
          assert x in s;
        } else {
          assert s[0] in s;
        }
      }
    }
  }

  lemma KeysPermutation(a: seq<Entry>, b: seq<Entry>, key: Entry -> (string, int))
    requires multiset(a) == multiset(b)
    ensures Keys(a, key) == Keys(b, key)
  {
    KeysMembers(a, key);
    KeysMembers(b, key);
    forall k | k in Keys(a, key) ensures k in Keys(b, key) {
      var x :| x in a && key(x) == k;
      assert x in multiset(b);
      var j :| 0 <= j < |b| && b[j] == x;
    }
    forall k | k in Keys(b, key) ensures k in Keys(a, key) {
      var x :| x in b && key(x) == k;
      assert x in multiset(a);
      var j :| 0 <= j < |a| && a[j] == x;
    }
  }

  /** The kept entries are the input with some left out, in input order. */
  lemma {:induction false} FirstOccurrencesSubseq(hs: seq<Entry>, key: Entry -> (string, int), seen: set<(string, int)>)
    ensures SubseqOf(FirstOccurrences(hs, key, seen), hs)
    decreases |hs|
  {
    if hs != [] {
      if key(hs[0]) in seen {
        FirstOccurrencesSubseq(hs[1..], key, seen);
      } else {
        FirstOccurrencesSubseq(hs[1..], key, seen + {key(hs[0])});
        var out := [hs[0]] + FirstOccurrences(hs[1..], key, seen + {key(hs[0])});
        assert out[1..] == FirstOccurrences(hs[1..], key, seen + {key(hs[0])});
      }
    }
  }

  // ---------------------------------------------------------------------
  // The table-of-contents branch

  /** One entry of `doc.get_toc()`: level, title and 1-based page. */
  datatype TocItem = TocItem(level: nat, title: string, page: int)

  /** End of the `(\.\d+)*` groups that start at i. */
  function GroupsEnd(t: string, i: nat): (e: nat)
    requires i <= |t|
    ensures i <= e <= |t|
    decreases |t| - i
  {
    if i + 1 < |t| && t[i] == '.' && IsDigit(t[i + 1]) then GroupsEnd(t, i + 1 + RunFrom(t, i + 1, IsDigit))
    else i
  }

  /** `re.sub(r'^\d+(\.\d+)*\s*', '', t)`: drop a leading section number
      and the white space after it. */
  function StripNumbering(t: string): (r: string)
    ensures |r| <= |t| && r == t[|t| - |r|..]
  {
    var d := RunFrom(t, 0, IsDigit);
    if d == 0 then t
    else
      var e := GroupsEnd(t, d);
      t[e + RunFrom(t, e, IsSpace)..]
  }

  /** Text that does not start with a digit keeps its numbering-free form. */
  lemma StripNumberingNoDigit(t: string)
    requires t == [] || !IsDigit(t[0])
    ensures StripNumbering(t) == t
  {
  }

  /** A number that ends at `e` is dropped with the white space after
      it. */
  lemma StripNumberingAt(t: string, e: nat)
    requires RunFrom(t, 0, IsDigit) > 0 && GroupsEnd(t, RunFrom(t, 0, IsDigit)) == e
    ensures e <= |t| && StripNumbering(t) == t[e + RunFrom(t, e, IsSpace)..]
  {
  }

  /** A number that ends where `u` starts leaves `u` without its leading
      white space. */
  lemma StripNumberingBefore(p: string, u: string)
    requires RunFrom(p + u, 0, IsDigit) > 0 && GroupsEnd(p + u, RunFrom(p + u, 0, IsDigit)) == |p|
    ensures StripNumbering(p + u) == u[RunFrom(u, 0, IsSpace)..]
  {
    var t := p + u;
    StripNumberingAt(t, |p|);
    var n := RunFrom(u, 0, IsSpace);
    RunFromShift(p, u, 0, IsSpace);
    assert RunFrom(t, |p|, IsSpace) == n;
    DropPastPrefix(p, u, n);
    assert StripNumbering(t) == t[|p| + n..];
  }

  /** The number "a.b" ends where `u` starts. */
  lemma DottedNumberEnd(a: string, b: string, u: string)
    requires a != [] && AllDigits(a) && b != [] && AllDigits(b)
    requires u != [] && !IsDigit(u[0]) && u[0] != '.'
    ensures var t := a + "." + b + u;
      RunFrom(t, 0, IsDigit) == |a| && GroupsEnd(t, |a|) == |a| + 1 + |b|
  {
    var t := a + "." + b + u;
    var v := "." + b + u;
    AppendAssoc(a, ".", b);
    AppendAssoc(a, "." + b, u);
    assert t == a + v;
    LeadingDigits(a, v);
    assert t[|a|] == '.' && t[|a| + 1] == b[0];
    RunFromShift(a, v, 1, IsDigit);
    DotDigits(b, u);
    assert t[|a| + 1 + |b|] == u[0];
  }

  lemma DotDigits(b: string, u: string)
    requires AllDigits(b) && u != [] && !IsDigit(u[0])
    ensures RunFrom("." + b + u, 1, IsDigit) == |b|
  {
    LeadingDigits(b, u);
    AppendAssoc(".", b, u);
    RunFromShift(".", b + u, 0, IsDigit);
  }

  /** A number "a" or "a.b" followed by anything that does not continue
      it loses the number and the white space after it. */
  lemma StripNumberingParts(a: string, b: string, u: string)
    requires a != [] && AllDigits(a) && AllDigits(b)
    requires u != [] && !IsDigit(u[0]) && u[0] != '.'
    ensures var p := if b == [] then a else a + "." + b;
      StripNumbering(p + u) == u[RunFrom(u, 0, IsSpace)..]
  {
    if b == [] {
      LeadingDigits(a, u);
      assert (a + u)[|a|] == u[0];
      StripNumberingBefore(a, u);
    } else {
      DottedNumberEnd(a, b, u);
      StripNumberingBefore(a + "." + b, u);
    }
  }

  /** "a.b title" loses "a.b " (and "a title" loses "a "). */
  lemma StripNumberingDotted(a: string, b: string, rest: string)
    requires a != [] && AllDigits(a) && AllDigits(b)
    requires rest == [] || !IsSpace(rest[0])
    ensures StripNumbering((if b == [] then a else a + "." + b) + " " + rest) == rest
  {
    var p := if b == [] then a else a + "." + b;
    var u := " " + rest;
    AppendAssoc(p, " ", rest);
    if rest != [] {
      assert u[1] == rest[0];
    }
    RunFromExact(u, 0, 1, IsSpace);
    StripNumberingParts(a, b, u);
    assert u[1..] == rest;
  }

  /** One table-of-contents entry: the cleaned title without its numbering
      plus one space, on page `max(0, page - 1)`. */
  function TocEntry(item: TocItem, curly: bool): (e: Entry)
    ensures e.page >= 0 && EndsWith(e.text, " ") && e.level == item.level
  {
    var title := StripNumbering(Clean(item.title, curly));
    EndsWithAppended(title, " ");
    Entry(item.level, title + " ", Max(0, item.page - 1))
  }

  /** `TocEntry` with the quote handling fixed, as a function value. */
  function TocEntryOf(curly: bool): TocItem -> Entry {
    item => TocEntry(item, curly)
  }

  /** The outline built from a table of contents, one entry per item. */
  function TocOutline(toc: seq<TocItem>, curly: bool): (out: seq<Entry>)
    ensures |out| == |toc|
    ensures forall k :: 0 <= k < |toc| ==> out[k] == TocEntry(toc[k], curly)
  {
    MapSeq(toc, TocEntryOf(curly))
  }

  /** The table-of-contents loop of process_pdf. */
  method TocEntries(toc: seq<TocItem>, curly: bool) returns (outline: seq<Entry>)
    ensures outline == TocOutline(toc, curly)
  {
    outline := [];
    for i := 0 to |toc|
      invariant outline == MapSeq(toc[..i], TocEntryOf(curly))
    {
      MapSeqSnoc(toc, i, TocEntryOf(curly));
      outline := outline + [TocEntry(toc[i], curly)];
    }
    assert toc[..|toc|] == toc;
  }

  /** The page is the 1-based page less one, never below 0. */
  lemma TocPages(toc: seq<TocItem>, curly: bool)
    ensures forall k :: 0 <= k < |toc| ==>
      TocOutline(toc, curly)[k].page == (if toc[k].page >= 1 then toc[k].page - 1 else 0)
  {
  }

  // ---------------------------------------------------------------------
  // get_best_title

  /** One text line of the `get_text("dict")` output: its spans and the
      top of its bounding box. */
  datatype Line = Line(spans: seq<Span>, top: int)

  /** `"".join(s["text"] for s in spans)` */
  function JoinSpans(spans: seq<Span>): string {
    if spans == [] then [] else JoinSpans(spans[..|spans| - 1]) + spans[|spans| - 1].text
  }

  /** What the outline needs of one page: its Markdown rendering, its text
      lines (from every block that has lines) and its plain text. */
  datatype Page = Page(markdown: string, lines: seq<Line>, text: string)

  /** A title candidate: a line's text, the size of its first span, its
      top. */
  datatype TitleLine = TitleLine(text: string, size: int, pos: int)

  predicate HasSpans(l: Line) { l.spans != [] }

  function TitleLineOf(l: Line): TitleLine
    requires HasSpans(l)
  {
    TitleLine(JoinSpans(l.spans), l.spans[0].size, l.top)
  }

  /** The lines that have spans, in page order. */
  function TitleLines(lines: seq<Line>): (r: seq<TitleLine>)
    ensures |r| <= |lines|
    ensures r == [] <==> forall j :: 0 <= j < |lines| ==> !HasSpans(lines[j])
  {
    if lines == [] then []
    else
      var l := lines[|lines| - 1];
      var init := lines[..|lines| - 1];
      assert forall j :: 0 <= j < |init| ==> init[j] == lines[j];
      TitleLines(init) + (if HasSpans(l) then [TitleLineOf(l)] else [])
  }

  /** `(-size, pos)`: largest first, then topmost. */
  function TitleKey(l: TitleLine): seq<int> { [-l.size, l.pos] }

  lemma TitleKeyOrder(a: TitleLine, b: TitleLine)
    ensures LexLe(TitleKey(a), TitleKey(b)) <==> a.size > b.size || (a.size == b.size && a.pos <= b.pos)
  {
    LexLePair(-a.size, a.pos, -b.size, b.pos);
  }

  /** Step 2 accepts more than 4 characters and fewer than 20 words. */
  predicate ProminentTitle(t: string) { |t| > 4 && WordCount(t) < 20 }

  /** Step 3 accepts more than 5 characters and fewer than 20 words. */
  predicate MeaningfulLine(t: string) { |t| > 5 && WordCount(t) < 20 }

  /** A finished title: "" or cleaned text of more than 4 characters. */
  predicate TitleShaped(t: string, curly: bool) {
    t == [] || (Collapsed(t) && CleanChars(t, curly) && |t| > 4)
  }

  /** Step 1: the cleaned metadata title, "" when there is none. */
  function MetadataTitle(metadata: Option<string>, curly: bool): (t: string)
    ensures Collapsed(t) && CleanChars(t, curly)
    ensures metadata.None? ==> t == []
  {
    if metadata.Some? && metadata.value != [] then Clean(metadata.value, curly) else []
  }

  /** Step 2: the largest-then-topmost line of the first page, cleaned,
      when it is prominent enough. */
  function LargestLine(lines: seq<Line>, curly: bool): (r: Option<string>)
    ensures r.Some? ==> ProminentTitle(r.value) && Collapsed(r.value) && CleanChars(r.value, curly)
  {
    var ls := TitleLines(lines);
    if ls == [] then None
    else
      var t := Clean(SortBy(ls, TitleKey)[0].text, curly);
      if ProminentTitle(t) then Some(t) else None
  }

  /** Every line of the page text, cleaned. */
  function CleanLines(lines: seq<string>, curly: bool): (r: seq<string>)
    ensures |r| == |lines| && forall j :: 0 <= j < |lines| ==> r[j] == Clean(lines[j], curly)
  {
    seq(|lines|, j requires 0 <= j < |lines| => Clean(lines[j], curly))
  }

  /** Step 3: the position of the first meaningful cleaned line at or
      after `i`. */
  function FirstMeaningful(cleaned: seq<string>, i: nat): (r: Option<nat>)
    requires i <= |cleaned|
    ensures r.Some? ==> i <= r.value < |cleaned| && MeaningfulLine(cleaned[r.value])
    decreases |cleaned| - i
  {
    if i == |cleaned| then None
    else if MeaningfulLine(cleaned[i]) then Some(i)
    else FirstMeaningful(cleaned, i + 1)
  }

  /** Step 3 finds nothing exactly when no cleaned line is meaningful... */
  lemma {:induction false} FirstMeaningfulNone(cleaned: seq<string>, i: nat)
    requires i <= |cleaned|
    ensures FirstMeaningful(cleaned, i).None? <==>
      forall j :: i <= j < |cleaned| ==> !MeaningfulLine(cleaned[j])
    decreases |cleaned| - i
  {
    if i < |cleaned| {
      FirstMeaningfulNone(cleaned, i + 1);
    }
  }

  /** ... and otherwise finds the first one. */
  lemma {:induction false} FirstMeaningfulAt(cleaned: seq<string>, i: nat, k: nat)
    requires i <= k < |cleaned| && MeaningfulLine(cleaned[k])
    requires forall j :: i <= j < k ==> !MeaningfulLine(cleaned[j])
    ensures FirstMeaningful(cleaned, i) == Some(k)
    decreases k - i
  {
    if i < k {
      FirstMeaningfulAt(cleaned, i + 1, k);
    }
  }

  /** Step 3 on the page text: the first meaningful line, cleaned. */
  function MeaningfulTextLine(text: string, curly: bool): (r: Option<string>)
    ensures r.Some? ==> MeaningfulLine(r.value) && Collapsed(r.value) && CleanChars(r.value, curly)
  {
    var lines := SplitLines(text);
    var cleaned := CleanLines(lines, curly);
    match FirstMeaningful(cleaned, 0)
    case Some(k) => assert cleaned[k] == Clean(lines[k], curly); Some(cleaned[k])
    case None => None
  }

  /** The fallback chain: metadata title, the largest first-page line,
      the first meaningful line of the first page's text, "". */
  function BestTitle(metadata: Option<string>, pages: seq<Page>, curly: bool): (t: string)
    ensures TitleShaped(t, curly)
    ensures |MetadataTitle(metadata, curly)| > 5 ==> t == MetadataTitle(metadata, curly)
  {
    var meta := MetadataTitle(metadata, curly);
    if |meta| > 5 then meta
    else if pages == [] then []
    else
      var largest := LargestLine(pages[0].lines, curly);
      if largest.Some? then largest.value
      else
        var first := MeaningfulTextLine(pages[0].text, curly);
        if first.Some? then first.value else []
  }

  /** The lines loop of get_best_title. */
  method CollectTitleLines(lines: seq<Line>) returns (r: seq<TitleLine>)
    ensures r == TitleLines(lines)
  {
    r := [];
    for i := 0 to |lines|
      invariant r == TitleLines(lines[..i])
    {
      assert lines[..i + 1][..i] == lines[..i];
      var l := lines[i];
      if l.spans != [] {
        r := r + [TitleLineOf(l)];
      }
    }
    assert lines[..|lines|] == lines;
  }

  /** The page-text loop of get_best_title, which returns at the first
      meaningful line. */
  method FindMeaningfulLine(text: string, curly: bool) returns (r: Option<string>)
    ensures r == MeaningfulTextLine(text, curly)
  {
    var lines := SplitLines(text);
    ghost var cleaned := CleanLines(lines, curly);
    MeaningfulTextLineOf(text, curly);
    for i := 0 to |lines|
      invariant FirstMeaningful(cleaned, i) == FirstMeaningful(cleaned, 0)
    {
      var line := Clean(lines[i], curly);
      assert line == cleaned[i];
      if |line| > 5 && WordCount(line) < 20 {
        assert FirstMeaningful(cleaned, i) == Some(i);
        return Some(line);
      }
      assert FirstMeaningful(cleaned, i) == FirstMeaningful(cleaned, i + 1);
    }
    assert FirstMeaningful(cleaned, |lines|) == None;
    r := None;
  }

  /** Step 3 in terms of the cleaned lines. */
  lemma MeaningfulTextLineOf(text: string, curly: bool)
    ensures var cleaned := CleanLines(SplitLines(text), curly);
      var k := FirstMeaningful(cleaned, 0);
      MeaningfulTextLine(text, curly) == if k.Some? then Some(cleaned[k.value]) else None
  {
  }

  /** get_best_title: returns at the first step that yields a title. */
  method GetBestTitle(metadata: Option<string>, pages: seq<Page>, curly: bool) returns (title: string)
    ensures title == BestTitle(metadata, pages, curly)
  {
    var meta := MetadataTitle(metadata, curly);
    BestTitleSteps(metadata, pages, curly);
    if |meta| > 5 {
      return meta;
    }
    if pages == [] {
      return [];
    }
    var lines := CollectTitleLines(pages[0].lines);
    LargestLineOf(pages[0].lines, curly);
    if lines != [] {
      lines := SortBy(lines, TitleKey);
      var potential := Clean(lines[0].text, curly);
      if |potential| > 4 && WordCount(potential) < 20 {
        return potential;
      }
    }
    var first := FindMeaningfulLine(pages[0].text, curly);
    title := if first.Some? then first.value else [];
  }

  /** The fallback chain, one step after another. */
  lemma BestTitleSteps(metadata: Option<string>, pages: seq<Page>, curly: bool)
    ensures var meta := MetadataTitle(metadata, curly);
      BestTitle(metadata, pages, curly) ==
        if |meta| > 5 then meta
        else if pages == [] then []
        else if LargestLine(pages[0].lines, curly).Some? then LargestLine(pages[0].lines, curly).value
        else if MeaningfulTextLine(pages[0].text, curly).Some? then MeaningfulTextLine(pages[0].text, curly).value
        else []
  {
  }

  /** Step 2 in terms of the sorted title lines. */
  lemma LargestLineOf(lines: seq<Line>, curly: bool)
    ensures var ls := TitleLines(lines);
      LargestLine(lines, curly) ==
        if ls == [] then None
        else if ProminentTitle(Clean(SortBy(ls, TitleKey)[0].text, curly)) then Some(Clean(SortBy(ls, TitleKey)[0].text, curly))
        else None
  {
  }

  /** The title is "" exactly when every step fails: no long metadata
      title, and on the first page neither a prominent largest line nor a
      meaningful text line. */
  lemma BestTitleEmpty(metadata: Option<string>, pages: seq<Page>, curly: bool)
    ensures BestTitle(metadata, pages, curly) == [] <==>
      (|MetadataTitle(metadata, curly)| <= 5 &&
       (pages != [] ==> LargestLine(pages[0].lines, curly).None? && MeaningfulTextLine(pages[0].text, curly).None?))
  {
  }

  /** The largest line is a line of largest first-span size, and the
      topmost such line. */
  lemma LargestLineIsLargest(lines: seq<Line>)
    requires TitleLines(lines) != []
    ensures var ls := TitleLines(lines);
      var top := SortBy(ls, TitleKey)[0];
      (forall j :: 0 <= j < |ls| ==> ls[j].size <= top.size) &&
      (forall j :: 0 <= j < |ls| && ls[j].size == top.size ==> top.pos <= ls[j].pos)
  {
    var ls := TitleLines(lines);
    var top := SortBy(ls, TitleKey)[0];
    SortByHead(ls, TitleKey);
    forall j | 0 <= j < |ls|
      ensures ls[j].size <= top.size
      ensures ls[j].size == top.size ==> top.pos <= ls[j].pos
    {
      TitleKeyOrder(top, ls[j]);
    }
  }

  // ---------------------------------------------------------------------
  // The title fallback of process_pdf

  predicate IsH1(e: Entry) { e.level == 1 }

  /** `first_h1 or outline[0]['text']` when get_best_title gave "". */
  function FallbackTitle(best: string, outline: seq<Entry>): (title: string)
    ensures best != [] ==> title == best
    ensures best == [] && outline == [] ==> title == []
  {
    if best != [] || outline == [] then best
    else match FirstWhere(outline, IsH1)
      case Some(i) => if outline[i].text != [] then outline[i].text else outline[0].text
      case None => outline[0].text
  }

  /** Without a best title, a non-empty first H1 text is used before the
      first entry's text, and the result is always an outline text. */
  lemma FallbackPrefersH1(outline: seq<Entry>, k: nat)
    requires k < |outline| && IsH1(outline[k]) && outline[k].text != []
    requires forall j :: 0 <= j < k ==> !IsH1(outline[j])
    ensures FallbackTitle([], outline) == outline[k].text
  {
    assert FirstWhere(outline, IsH1) == Some(k);
  }

  lemma FallbackFromOutline(outline: seq<Entry>)
    requires outline != []
    ensures exists k :: 0 <= k < |outline| && FallbackTitle([], outline) == outline[k].text
  {
    var f := FirstWhere(outline, IsH1);
    if f.Some? && outline[f.value].text != [] {
      assert FallbackTitle([], outline) == outline[f.value].text;
    } else {
      assert FallbackTitle([], outline) == outline[0].text;
    }
  }
}
