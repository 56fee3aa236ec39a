/** 1A/main6.py, pass 2: the spans of text blocks inside the vertical band
    that leaves out the top and bottom tenth of the page, on lines that do
    not look like a table-of-contents entry; the body size; the three
    largest heading sizes; and the headings of those sizes. */
module MultiPassFonts {
  import opened Common
  import opened Text
  import opened Sorting
  import opened MultiPass

  /** A kept span: stripped text, size, whether the font name says bold,
      and its page. */
  datatype FontSpan = FontSpan(text: string, size: int, bold: bool, page: nat)

  // ---------------------------------------------------------------------
  // Which spans are kept

  /** A text block whose top is below the top tenth of the page and whose
      bottom is above the bottom tenth. */
  predicate InBand(b: Block, height: int) {
    b.kind == 0 && 10 * b.top > height && 10 * b.bottom < 9 * height
  }

  /** `"".join(s['text'] for s in line['spans'])` */
  function LineText(line: Line): string {
    if line == [] then [] else LineText(line[..|line| - 1]) + line[|line| - 1].text
  }

  /** Length of the maximal run of characters satisfying `p` that ends at
      `j`. */
  function RunBefore(s: string, j: nat, p: char -> bool): (n: nat)
    requires j <= |s|
    ensures n <= j
    ensures forall k :: j - n <= k < j ==> p(s[k])
    ensures n == j || !p(s[j - n - 1])
  {
    if j > 0 && p(s[j - 1]) then 1 + RunBefore(s, j - 1, p) else 0
  }

  /** `\.{5,}\s*\d+` ends at `j`: digits end there, with whitespace and at
      least five dots before them. Each part is the longest run of its
      kind, since dots, whitespace and digits are different characters. */
  predicate TocEndsAt(t: string, j: nat)
    requires j <= |t|
  {
    var n := RunBefore(t, j, IsDigit);
    var w := RunBefore(t, j - n, IsSpace);
    n > 0 && RunBefore(t, j - n - w, IsDot) >= 5
  }

  /** `re.search(r'\s*\.{5,}\s*\d+$', line_text)` succeeds: the pattern
      ends at the end, or just before a final newline. */
  predicate TocLine(t: string) {
    TocEndsAt(t, |t|) || (|t| > 0 && t[|t| - 1] == '\n' && TocEndsAt(t, |t| - 1))
  }

  /** The span a raw span becomes, if its stripped text is not empty. */
  function KeptIn(s: RawSpan, page: nat): (r: seq<FontSpan>)
    ensures r != [] <==> Strip(s.text) != []
    ensures r != [] ==> r == [FontSpan(Strip(s.text), s.size, Contains(Lower(s.font), "bold"), page)]
  {
    var t := Strip(s.text);
    if t == [] then [] else [FontSpan(t, s.size, Contains(Lower(s.font), "bold"), page)]
  }

  function KeptOf(page: nat): RawSpan -> seq<FontSpan> {
    (s: RawSpan) => KeptIn(s, page)
  }

  /** The spans of one line: none when the line looks like a table of
      contents entry. */
  function LineSpans(line: Line, page: nat): seq<FontSpan> {
    if TocLine(LineText(line)) then [] else ConcatMap(line, KeptOf(page))
  }

  function LineSpansOf(page: nat): Line -> seq<FontSpan> {
    (line: Line) => LineSpans(line, page)
  }

  /** The spans of one block: none outside the band. */
  function BlockSpans(b: Block, height: int, page: nat): seq<FontSpan> {
    if InBand(b, height) then ConcatMap(b.lines, LineSpansOf(page)) else []
  }

  function BlockSpansOf(height: int, page: nat): Block -> seq<FontSpan> {
    (b: Block) => BlockSpans(b, height, page)
  }

  function PageSpans(p: Page, n: nat): seq<FontSpan> {
    ConcatMap(p.blocks, BlockSpansOf(p.height, n))
  }

  /** The spans of pass 2, page by page, block by block, line by line. */
  function FontSpans(pages: seq<Page>): seq<FontSpan> {
    ConcatMapIndexed(pages, PageSpans)
  }

  // ---------------------------------------------------------------------
  // The collecting loops

  /** The span loop of one line. */
  method CollectLine(line: Line, page: nat) returns (out: seq<FontSpan>)
    ensures out == ConcatMap(line, KeptOf(page))
  {
    out := [];
    for k := 0 to |line|
      invariant out == ConcatMap(line[..k], KeptOf(page))
    {
      ConcatMapSnoc(line, k, KeptOf(page));
      var text := Strip(line[k].text);
      if text != [] {
        out := out + [FontSpan(text, line[k].size, Contains(Lower(line[k].font), "bold"), page)];
      }
    }
    assert line[..|line|] == line;
  }

  /** The line loop of one block, which skips table-of-contents lines. */
  method CollectBlock(b: Block, page: nat) returns (out: seq<FontSpan>)
    ensures out == ConcatMap(b.lines, LineSpansOf(page))
  {
    out := [];
    for l := 0 to |b.lines|
      invariant out == ConcatMap(b.lines[..l], LineSpansOf(page))
    {
      ConcatMapSnoc(b.lines, l, LineSpansOf(page));
      var lineText := LineText(b.lines[l]);
      if !TocLine(lineText) {
        var spans := CollectLine(b.lines[l], page);
        out := out + spans;
      }
    }
    assert b.lines[..|b.lines|] == b.lines;
  }

  /** The block loop of one page, which skips blocks outside the band. */
  method CollectPage(p: Page, n: nat) returns (out: seq<FontSpan>)
    ensures out == PageSpans(p, n)
  {
    out := [];
    for j := 0 to |p.blocks|
      invariant out == ConcatMap(p.blocks[..j], BlockSpansOf(p.height, n))
    {
      ConcatMapSnoc(p.blocks, j, BlockSpansOf(p.height, n));
      if InBand(p.blocks[j], p.height) {
        var more := CollectBlock(p.blocks[j], n);
        out := out + more;
      }
    }
    assert p.blocks[..|p.blocks|] == p.blocks;
  }

  /** The page loop of pass 2. */
  method CollectFontSpans(pages: seq<Page>) returns (spans: seq<FontSpan>)
    ensures spans == FontSpans(pages)
  {
    spans := [];
    for n := 0 to |pages|
      invariant spans == FontSpans(pages[..n])
    {
      var more := CollectPage(pages[n], n);
      spans := spans + more;
      ConcatMapIndexedSnoc(pages, n, PageSpans);
    }
    assert pages[..|pages|] == pages;
  }

  // ---------------------------------------------------------------------
  // The table-of-contents test against the regular expression

  /** Every character of `t[a..b]` satisfies `p`. */
  predicate AllIn(t: string, a: nat, b: nat, p: char -> bool)
    requires a <= b <= |t|
  {
    forall k :: a <= k < b ==> p(t[k])
  }

  /** One match of `\.{5,}\s*\d+$`: dots from `a` to `b`, whitespace from
      `b` to `c`, digits from `c` to `j`, and `$` at `j`. (The leading
      `\s*` of the pattern can always match nothing.) */
  predicate TocMatch(t: string, a: nat, b: nat, c: nat, j: nat) {
    a + 5 <= b <= c < j <= |t| && Dollar(t, j) &&
    AllIn(t, a, b, IsDot) && AllIn(t, b, c, IsSpace) && AllIn(t, c, j, IsDigit)
  }

  /** A run that is known to start at `i` has length `j - i`. */
  lemma {:induction false} RunBeforeExact(s: string, i: nat, j: nat, p: char -> bool)
    requires i <= j <= |s| && AllIn(s, i, j, p)
    requires i == 0 || !p(s[i - 1])
    ensures RunBefore(s, j, p) == j - i
    decreases j - i
  {
    if i < j { RunBeforeExact(s, i, j - 1, p); }
  }

  /** A run is at least as long as any stretch of `p` that ends with it. */
  lemma {:induction false} RunBeforeAtLeast(s: string, i: nat, j: nat, p: char -> bool)
    requires i <= j <= |s| && AllIn(s, i, j, p)
    ensures RunBefore(s, j, p) >= j - i
    decreases j - i
  {
    if i < j { RunBeforeAtLeast(s, i, j - 1, p); }
  }

  /** The runs TocEndsAt measures form a match ending at `j`. */
  lemma TocEndsAtMatch(t: string, j: nat) returns (a: nat, b: nat, c: nat)
    requires j <= |t| && TocEndsAt(t, j)
    ensures a + 5 <= b <= c < j
    ensures AllIn(t, a, b, IsDot) && AllIn(t, b, c, IsSpace) && AllIn(t, c, j, IsDigit)
  {
    var n := RunBefore(t, j, IsDigit);
    var w := RunBefore(t, j - n, IsSpace);
    var d := RunBefore(t, j - n - w, IsDot);
    a, b, c := j - n - w - d, j - n - w, j - n;
  }

  /** A match ending at `j` is found by TocEndsAt. */
  lemma MatchTocEndsAt(t: string, a: nat, b: nat, c: nat, j: nat)
    requires TocMatch(t, a, b, c, j)
    ensures TocEndsAt(t, j)
  {
    assert !IsDigit(t[c - 1]) by {
      if c - 1 >= b { assert IsSpace(t[c - 1]); } else { assert IsDot(t[c - 1]); }
    }
    RunBeforeExact(t, c, j, IsDigit);
    assert !IsSpace(t[b - 1]) by { assert IsDot(t[b - 1]); }
    RunBeforeExact(t, b, c, IsSpace);
    RunBeforeAtLeast(t, a, b, IsDot);
  }

  /** The line test is exactly a search for the regular expression: it
      succeeds if and only if some match exists. */
  lemma TocLineIff(t: string)
    ensures TocLine(t) <==> exists a: nat, b: nat, c: nat, j: nat :: TocMatch(t, a, b, c, j)
  {
    if TocLine(t) {
      var a, b, c, j := TocLineMatch(t);
      assert TocMatch(t, a, b, c, j);
    }
    if exists a: nat, b: nat, c: nat, j: nat :: TocMatch(t, a, b, c, j) {
      var a: nat, b: nat, c: nat, j: nat :| TocMatch(t, a, b, c, j);
      MatchTocLine(t, a, b, c, j);
    }
  }

  /** Any match makes the line test succeed. */
  lemma MatchTocLine(t: string, a: nat, b: nat, c: nat, j: nat)
    requires TocMatch(t, a, b, c, j)
    ensures TocLine(t)
  {
    MatchTocEndsAt(t, a, b, c, j);
    if j < |t| {
      assert j == |t| - 1 && t[|t| - 1] == '\n';
    }
  }

  lemma TocLineMatch(t: string) returns (a: nat, b: nat, c: nat, j: nat)
    requires TocLine(t)
    ensures TocMatch(t, a, b, c, j)
  {
    if TocEndsAt(t, |t|) {
      j := |t|;
    } else {
      j := |t| - 1;
    }
    assert Dollar(t, j);
    a, b, c := TocEndsAtMatch(t, j);
  }

  // ---------------------------------------------------------------------
  // Where the spans of pass 2 come from

  /** Span `k` of line `l` of block `b`, on a line that is not a table of
      contents entry, becomes `x`. */
  predicate SpanAt(b: Block, l: nat, k: nat, page: nat, x: FontSpan) {
    l < |b.lines| && !TocLine(LineText(b.lines[l])) && k < |b.lines[l]| && x in KeptIn(b.lines[l][k], page)
  }

  /** ... and block `j` of page `p` (numbered `n`) lies in the band. */
  predicate SpanIn(p: Page, n: nat, j: nat, l: nat, k: nat, x: FontSpan) {
    j < |p.blocks| && InBand(p.blocks[j], p.height) && SpanAt(p.blocks[j], l, k, n, x)
  }

  lemma InLineSpans(line: Line, page: nat, x: FontSpan)
    ensures x in LineSpans(line, page) <==>
      !TocLine(LineText(line)) && exists k :: 0 <= k < |line| && x in KeptIn(line[k], page)
  {
    if !TocLine(LineText(line)) {
      InConcatMap(line, KeptOf(page), x);
      if x in LineSpans(line, page) {
        var k :| 0 <= k < |line| && x in KeptOf(page)(line[k]);
        assert x in KeptIn(line[k], page);
      }
      if exists k :: 0 <= k < |line| && x in KeptIn(line[k], page) {
        var k :| 0 <= k < |line| && x in KeptIn(line[k], page);
        assert x in KeptOf(page)(line[k]);
      }
    }
  }

  lemma InBlockSpans(b: Block, height: int, page: nat, x: FontSpan)
    ensures x in BlockSpans(b, height, page) <==> InBand(b, height) && exists l: nat, k: nat :: SpanAt(b, l, k, page, x)
  {
    if InBand(b, height) {
      InConcatMap(b.lines, LineSpansOf(page), x);
      if x in BlockSpans(b, height, page) {
        var l :| 0 <= l < |b.lines| && x in LineSpansOf(page)(b.lines[l]);
        InLineSpans(b.lines[l], page, x);
        var k :| 0 <= k < |b.lines[l]| && x in KeptIn(b.lines[l][k], page);
        assert SpanAt(b, l, k, page, x);
      }
      if exists l: nat, k: nat :: SpanAt(b, l, k, page, x) {
        var l: nat, k: nat :| SpanAt(b, l, k, page, x);
        InLineSpans(b.lines[l], page, x);
        assert x in LineSpansOf(page)(b.lines[l]);
      }
    }
  }

  lemma InPageSpans(p: Page, n: nat, x: FontSpan)
    ensures x in PageSpans(p, n) <==> exists j: nat, l: nat, k: nat :: SpanIn(p, n, j, l, k, x)
  {
    InConcatMap(p.blocks, BlockSpansOf(p.height, n), x);
    if x in PageSpans(p, n) {
      var j :| 0 <= j < |p.blocks| && x in BlockSpansOf(p.height, n)(p.blocks[j]);
      InBlockSpans(p.blocks[j], p.height, n, x);
      var l: nat, k: nat :| SpanAt(p.blocks[j], l, k, n, x);
      assert SpanIn(p, n, j, l, k, x);
    }
    if exists j: nat, l: nat, k: nat :: SpanIn(p, n, j, l, k, x) {
      var j: nat, l: nat, k: nat :| SpanIn(p, n, j, l, k, x);
      InBlockSpans(p.blocks[j], p.height, n, x);
      assert x in BlockSpansOf(p.height, n)(p.blocks[j]);
    }
  }

  /** Pass 2 keeps exactly the non-blank spans of lines that are not table
      of contents entries, in text blocks inside the band: a span is in it
      if and only if it comes from such a raw span. */
  lemma FontSpanSource(pages: seq<Page>, x: FontSpan)
    ensures x in FontSpans(pages) <==> exists n: nat, j: nat, l: nat, k: nat :: n < |pages| && SpanIn(pages[n], n, j, l, k, x)
  {
    InConcatMapIndexed(pages, PageSpans, x);
    if x in FontSpans(pages) {
      var n :| 0 <= n < |pages| && x in PageSpans(pages[n], n);
      InPageSpans(pages[n], n, x);
      var j: nat, l: nat, k: nat :| SpanIn(pages[n], n, j, l, k, x);
    }
    if exists n: nat, j: nat, l: nat, k: nat :: n < |pages| && SpanIn(pages[n], n, j, l, k, x) {
      var n: nat, j: nat, l: nat, k: nat :| n < |pages| && SpanIn(pages[n], n, j, l, k, x);
      InPageSpans(pages[n], n, x);
    }
  }

  /** Every kept span has a stripped, non-empty text, lies on one of the
      pages, and is bold exactly when its font name contains "bold" in any
      letter case. */
  lemma FontSpanShape(pages: seq<Page>, x: FontSpan)
    requires x in FontSpans(pages)
    ensures x.text != [] && Trimmed(x.text) && x.page < |pages|
    ensures exists r: RawSpan :: x == FontSpan(Strip(r.text), r.size, Contains(Lower(r.font), "bold"), x.page)
  {
    FontSpanSource(pages, x);
    var n: nat, j: nat, l: nat, k: nat :| n < |pages| && SpanIn(pages[n], n, j, l, k, x);
    var r := pages[n].blocks[j].lines[l][k];
    StripTrimmed(r.text);
  }
}
