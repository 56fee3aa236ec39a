/** 1A/main6.py, extract_headings_from_pdf once the PDF library has given
    its blocks and lines. Pass 1 takes numbered blocks; pass 2 takes the
    spans of the three largest heading sizes; pass 3 sorts by page, merges
    runs of one level, page and pass, and filters; the title is the
    shortest H1. */
module MultiPass {
  import opened Common
  import opened Text
  import opened Sorting

  /** A heading before the final filter; `numbered` is its `style` field
      ("numbered" for pass 1, "font" for pass 2). */
  datatype Heading = Heading(level: nat, text: string, page: int, numbered: bool)

  // ---------------------------------------------------------------------
  // Pass 1: blocks matching ^\s*(\d+(\.\d+)*)\s+([A-Z].*)$

  /** One page as the PDF library gives it: the texts of its
      `get_text("blocks")` blocks (pass 1), and its height with the blocks
      of `get_text("dict")` (pass 2). */
  datatype Page = Page(height: int, textBlocks: seq<string>, blocks: seq<Block>)

  /** A block of `get_text("dict")`: its type (0 for text), the top and
      bottom of its bounding box, and its lines. */
  datatype Block = Block(kind: int, top: int, bottom: int, lines: seq<Line>)

  /** A line is its spans. */
  type Line = seq<RawSpan>

  /** A span: its text, its size in hundredths of a point (after
      `round(size, 2)`) and its font name. */
  datatype RawSpan = RawSpan(text: string, size: int, font: string)

  predicate DigitOrDot(c: char) { IsDigit(c) || c == '.' }

  /** `\d+(\.\d+)*`: digits, where every dot is followed by a digit. */
  predicate DottedNumber(num: string) {
    num != [] && IsDigit(num[0]) &&
    forall k :: 0 <= k < |num| ==> DottedAt(num, k)
  }

  /** Position `k` holds a digit, or a dot with a digit after it. */
  predicate DottedAt(num: string, k: nat)
    requires k < |num|
  {
    IsDigit(num[k]) || (num[k] == '.' && k + 1 < |num| && IsDigit(num[k + 1]))
  }

  /** `H{min(depth, 6)}` for a block that matches the numbered pattern,
      where depth is one more than the dots of the number; None when it
      does not match. */
  function NumberedLevel(t: string): (r: Option<nat>)
    ensures r.Some? ==> 1 <= r.value <= 6
  {
    NumberFrom(t, RunFrom(t, 0, IsSpace))
  }

  /** The pattern after the leading spaces. Its number has to be the whole
      run of digits and dots: where the greedy number stops early, a dot or
      a digit follows it, and `\s+` cannot take either. */
  function NumberFrom(t: string, i: nat): (r: Option<nat>)
    requires i <= |t|
    ensures r.Some? ==> 1 <= r.value <= 6
  {
    var e := i + RunFrom(t, i, DigitOrDot);
    if DottedNumber(t[i..e]) then CapitalFrom(t, e, CountChar(t[i..e], '.')) else None
  }

  /** The pattern after the number: `\s+([A-Z].*)$`. */
  function CapitalFrom(t: string, e: nat, dots: nat): (r: Option<nat>)
    requires e <= |t|
    ensures r.Some? ==> 1 <= r.value <= 6
  {
    var c := e + RunFrom(t, e, IsSpace);
    if e < c < |t| && IsUpper(t[c]) && Dollar(t, c + 1 + RunFrom(t, c + 1, NotNewline))
    then Some(Min(dots + 1, 6))
    else None
  }

  /** The heading pass 1 takes from the text of one block on page `page`:
      one when the block matches, with the level of its number and the
      stripped text, and none otherwise. */
  function NumberedIn(text: string, page: nat): (hs: seq<Heading>)
    ensures hs != [] <==> NumberedLevel(text).Some?
    ensures hs != [] ==> hs == [Heading(NumberedLevel(text).value, Strip(text), page, true)]
  {
    match NumberedLevel(text)
    case Some(l) => [Heading(l, Strip(text), page, true)]
    case None => []
  }

  function NumberedOf(page: nat): string -> seq<Heading> {
    (text: string) => NumberedIn(text, page)
  }

  function NumberedOnPage(p: Page, n: nat): seq<Heading> {
    ConcatMap(p.textBlocks, NumberedOf(n))
  }

  /** The headings of pass 1, page by page and block by block. */
  function NumberedPass(pages: seq<Page>): seq<Heading> {
    ConcatMapIndexed(pages, NumberedOnPage)
  }

  /** The block loop of pass 1 on one page. */
  method CollectBlocks(blocks: seq<string>, n: nat) returns (out: seq<Heading>)
    ensures out == ConcatMap(blocks, NumberedOf(n))
  {
    out := [];
    for j := 0 to |blocks|
      invariant out == ConcatMap(blocks[..j], NumberedOf(n))
    {
      ConcatMapSnoc(blocks, j, NumberedOf(n));
      var level := NumberedLevel(blocks[j]);
      if level.Some? {
        out := out + [Heading(level.value, Strip(blocks[j]), n, true)];
      }
    }
    assert blocks[..|blocks|] == blocks;
  }

  /** The page loop of pass 1. */
  method CollectNumbered(pages: seq<Page>) returns (hs: seq<Heading>)
    ensures hs == NumberedPass(pages)
  {
    hs := [];
    for n := 0 to |pages|
      invariant hs == NumberedPass(pages[..n])
    {
      var found := CollectBlocks(pages[n].textBlocks, n);
      ConcatMapIndexedSnoc(pages, n, NumberedOnPage);
      hs := hs + found;
    }
    assert pages[..|pages|] == pages;
  }

  /** Pass 1 takes exactly the blocks the pattern matches: a heading is in
      it if and only if it is the heading of some block of its page. */
  lemma NumberedPassSource(pages: seq<Page>, h: Heading)
    ensures h in NumberedPass(pages) <==>
      exists n, j :: 0 <= n < |pages| && 0 <= j < |pages[n].textBlocks| && h in NumberedIn(pages[n].textBlocks[j], n)
  {
    InConcatMapIndexed(pages, NumberedOnPage, h);
    forall n | 0 <= n < |pages|
      ensures h in NumberedOnPage(pages[n], n) <==>
        exists j :: 0 <= j < |pages[n].textBlocks| && h in NumberedIn(pages[n].textBlocks[j], n)
    {
      InConcatMap(pages[n].textBlocks, NumberedOf(n), h);
    }
  }

  /** Every heading of pass 1 is numbered, has a level from 1 to 6, and
      lies on one of the pages. */
  lemma NumberedPassShape(pages: seq<Page>, h: Heading)
    requires h in NumberedPass(pages)
    ensures h.numbered && 1 <= h.level <= 6 && 0 <= h.page < |pages|
  {
    NumberedPassSource(pages, h);
  }

  // The numbered pattern, built from its parts.

  /** No newline, except possibly as the last character (where `$` still
      matches). */
  predicate OneLine(rest: string) {
    forall k :: 0 <= k < |rest| - 1 ==> rest[k] != '\n'
  }

  /** The parts the numbered pattern takes, by position: spaces before
      `i`, the number from `i` to `e`, spaces from `e` to `c`, a capital
      letter at `c` and the rest of the line after it. */
  predicate NumberedAt(t: string, i: nat, e: nat, c: nat) {
    i < e < c < |t| && AllSpaces(t[..i]) && DottedNumber(t[i..e]) && AllSpaces(t[e..c]) &&
    IsUpper(t[c]) && OneLine(t[c + 1..])
  }

  /** A block made of spaces, a dotted number, spaces, a capital letter and
      the rest of one line is a numbered heading whose level is one more
      than the dots of the number, at most 6. */
  lemma NumberedLevelAt(t: string, i: nat, e: nat, c: nat)
    requires NumberedAt(t, i, e, c)
    ensures NumberedLevel(t) == Some(Min(CountChar(t[i..e], '.') + 1, 6))
  {
    var dots := CountChar(t[i..e], '.');
    CapitalAt(t, e, c, dots);
    NumberAt(t, i, e, CapitalFrom(t, e, dots));
    assert RunFrom(t, 0, IsSpace) == i by {
      forall k | 0 <= k < i ensures IsSpace(t[k]) { assert t[k] == t[..i][k]; }
      assert t[i] == t[i..e][0];
      RunFromExact(t, 0, i, IsSpace);
    }
  }

  lemma CapitalAt(t: string, e: nat, c: nat, dots: nat)
    requires e < c < |t| && AllSpaces(t[e..c]) && IsUpper(t[c]) && OneLine(t[c + 1..])
    ensures CapitalFrom(t, e, dots) == Some(Min(dots + 1, 6))
  {
    assert RunFrom(t, e, IsSpace) == c - e by {
      forall k | e <= k < c ensures IsSpace(t[k]) { assert t[k] == t[e..c][k - e]; }
      RunFromExact(t, e, c, IsSpace);
    }
    var n := RunFrom(t, c + 1, NotNewline);
    assert Dollar(t, c + 1 + n) by {
      assert c + 1 + n < |t| ==> t[c + 1 + n] == t[c + 1..][n];
    }
  }

  lemma NumberAt(t: string, i: nat, e: nat, after: Option<nat>)
    requires i < e < |t| && DottedNumber(t[i..e]) && IsSpace(t[e])
    requires after == CapitalFrom(t, e, CountChar(t[i..e], '.'))
    ensures NumberFrom(t, i) == after
  {
    assert RunFrom(t, i, DigitOrDot) == e - i by {
      forall k | i <= k < e ensures DigitOrDot(t[k]) {
        DottedChars(t[i..e], k - i);
        assert t[k] == t[i..e][k - i];
      }
      RunFromExact(t, i, e, DigitOrDot);
    }
  }

  lemma DottedChars(num: string, k: nat)
    requires DottedNumber(num) && k < |num|
    ensures DigitOrDot(num[k])
  {
    assert DottedAt(num, k);
  }

  /** Conversely, every block the pattern matches has those parts. */
  lemma NumberedLevelShape(t: string)
    requires NumberedLevel(t).Some?
    ensures exists i, e, c :: NumberedAt(t, i, e, c)
  {
    var i := RunFrom(t, 0, IsSpace);
    var e := i + RunFrom(t, i, DigitOrDot);
    assert NumberFrom(t, i).Some?;
    assert DottedNumber(t[i..e]) && CapitalFrom(t, e, CountChar(t[i..e], '.')).Some?;
    var c := CapitalShape(t, e, CountChar(t[i..e], '.'));
    assert AllSpaces(t[..i]);
    assert NumberedAt(t, i, e, c);
  }

  /** Where CapitalFrom finds its letter. */
  lemma CapitalShape(t: string, e: nat, dots: nat) returns (c: nat)
    requires e <= |t| && CapitalFrom(t, e, dots).Some?
    ensures e < c < |t| && AllSpaces(t[e..c]) && IsUpper(t[c]) && OneLine(t[c + 1..])
  {
    c := e + RunFrom(t, e, IsSpace);
    var rest := t[c + 1..];
    var n := RunFrom(t, c + 1, NotNewline);
    forall k | 0 <= k < |rest| - 1 ensures rest[k] != '\n' {
      assert rest[k] == t[c + 1 + k];
    }
  }
}
