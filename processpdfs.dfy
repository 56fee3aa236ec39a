/** process_pdfs.py: the outline comes from the table of contents, else
    from the explicit Markdown headings, else from bold text and enlarged
    lines scored by `is_likely_heading`. Clean text here standardises the
    en dash only (`curly` is false). */
module ProcessPdfs {
  import opened Common
  import opened Text
  import opened Sorting
  import opened Stats
  import opened MarkdownOutline

  // ---------------------------------------------------------------------
  // is_likely_heading, with the confidence counted in tenths

  /** The `font_size` and `avg_font_size` entries of a context, in
      hundredths of a point. */
  datatype SizeRatio = SizeRatio(fontSize: int, avgSize: real)

  /** The context dict: the sizes when the caller supplies them, then
      `is_line_start` and `is_isolated`. */
  datatype Context = Context(size: Option<SizeRatio>, lineStart: bool, isolated: bool)

  /** The ratio `font_size / avg_font_size` can be taken. */
  predicate Divisible(ctx: Context) {
    ctx.size.Some? ==> ctx.size.value.avgSize != 0.0
  }

  /** `(is_heading, confidence, suggested_level)`: confidence in tenths,
      level 1 for "H1" and so on. */
  datatype Verdict = Verdict(isHeading: bool, confidence: int, level: nat)

  /** The word-count and character-count terms. */
  function LengthScore(words: nat, chars: nat): int {
    (if words <= 3 then 4 else if words <= 6 then 2 else if words > 15 then -3 else 0) +
    (if chars <= 30 then 2 else if chars > 100 then -4 else 0)
  }

  /** `[A-Z][a-z]+` followed by `k - 1` more such words, each after a single
      space, then `$`, from position `i`. */
  predicate CapWordsFrom(t: string, i: nat, k: nat)
    requires i <= |t| && k >= 1
    decreases k
  {
    i < |t| && IsUpper(t[i]) &&
    var e := i + 1 + RunFrom(t, i + 1, IsLower);
    e > i + 1 &&
    (if k == 1 then Dollar(t, e) else e < |t| && t[e] == ' ' && CapWordsFrom(t, e + 1, k - 1))
  }

  /** The recipe-name patterns, two words, one word and three words. */
  const RecipePatterns: seq<string -> bool> :=
    [t => CapWordsFrom(t, 0, 2), t => CapWordsFrom(t, 0, 1), t => CapWordsFrom(t, 0, 3)]

  const Indicators: seq<string> :=
    ["ingredients", "instructions", "method", "preparation", "recipe",
     "breakfast", "lunch", "dinner", "appetizer", "dessert", "snack",
     "introduction", "conclusion", "summary", "overview", "chapter",
     "section", "part", "step"]

  predicate HasIndicator(lower: string) {
    exists j :: 0 <= j < |Indicators| && Contains(lower, Indicators[j])
  }

  /** The characters `.,;:!?()[]{}`. */
  predicate IsPunct(c: char) {
    c == '.' || c == ',' || c == ';' || c == ':' || c == '!' || c == '?' ||
    c == '(' || c == ')' || c == '[' || c == ']' || c == '{' || c == '}'
  }

  /** The `isupper()` / `istitle()` term. */
  function CaseScore(t: string, words: nat): int {
    if IsUpperStr(t) && words <= 5 then 2 else if IsTitleStr(t) then 1 else 0
  }

  /** No punctuation earns 2; more than one mark per two words costs 3. */
  function PunctScore(marks: nat, words: nat): int {
    if marks == 0 then 2 else if 2 * marks > words then -3 else 0
  }

  function SizeScore(size: Option<SizeRatio>): (r: int)
    requires size.Some? ==> size.value.avgSize != 0.0
    ensures 0 <= r <= 3
  {
    match size
    case None => 0
    case Some(s) =>
      var ratio := s.fontSize as real / s.avgSize;
      if ratio > 1.2 then 3 else if ratio > 1.1 then 1 else 0
  }

  function ContextScore(ctx: Context): int
    requires Divisible(ctx)
  {
    SizeScore(ctx.size) + (if ctx.lineStart then 1 else 0) + (if ctx.isolated then 2 else 0)
  }

  /** The terms that depend on the text alone. */
  function TextScore(t: string): int {
    var words := WordCount(t);
    LengthScore(words, |t|) + (if AnyMatch(RecipePatterns, t) then 3 else 0) +
    (if HasIndicator(Lower(t)) then 2 else 0) + CaseScore(t, words) +
    PunctScore(|Filter(t, IsPunct)|, words)
  }

  /** The confidence of a stripped text of at least two characters. */
  function Confidence(t: string, ctx: Context): int
    requires Divisible(ctx)
  {
    TextScore(t) + ContextScore(ctx)
  }

  /** A heading when the confidence exceeds 0.4; "H2" above 0.7, else "H3":
      the "H1" branch sits behind the "H2" test and is never taken. */
  function Likely(text: string, ctx: Context): (v: Verdict)
    requires Divisible(ctx)
    ensures v.isHeading <==> v.confidence > 4
    ensures v.level == 2 <==> v.confidence > 7
    ensures v.level == 2 || v.level == 3
    ensures |Strip(text)| < 2 ==> !v.isHeading && v.confidence == 0
  {
    var t := Strip(text);
    if |t| < 2 then Verdict(false, 0, 3)
    else
      var c := Confidence(t, ctx);
      Verdict(c > 4, c, if c > 7 then 2 else if c > 9 then 1 else 3)
  }

  /** The indicator loop: `for indicator in ...: if indicator in lower: ...;
      break`. */
  method FindIndicator(lower: string) returns (found: bool)
    ensures found == HasIndicator(lower)
  {
    found := false;
    var j := 0;
    while j < |Indicators| && !found
      invariant 0 <= j <= |Indicators|
      invariant found ==> HasIndicator(lower)
      invariant !found ==> forall m :: 0 <= m < j ==> !Contains(lower, Indicators[m])
    {
      found := Contains(lower, Indicators[j]);
      j := j + 1;
    }
  }

  /** `sum(1 for c in text if c in '.,;:!?()[]{}')` */
  method CountPunctuation(t: string) returns (marks: nat)
    ensures marks == |Filter(t, IsPunct)|
  {
    marks := 0;
    for i := 0 to |t|
      invariant marks == |Filter(t[..i], IsPunct)|
    {
      FilterSnoc(t, i, IsPunct);
      if IsPunct(t[i]) {
        marks := marks + 1;
      }
    }
    assert t[..|t|] == t;
  }

  /** The text terms of is_likely_heading, added up one by one. */
  method ScoreText(t: string) returns (confidence: int)
    ensures confidence == TextScore(t)
  {
    var words := WordCount(t);
    confidence := 0;
    if words <= 3 {
      confidence := confidence + 4;
    } else if words <= 6 {
      confidence := confidence + 2;
    } else if words > 15 {
      confidence := confidence - 3;
    }
    if |t| <= 30 {
      confidence := confidence + 2;
    } else if |t| > 100 {
      confidence := confidence - 4;
    }
    assert confidence == LengthScore(words, |t|);
    var recipe := MatchAny(RecipePatterns, t);
    if recipe {
      confidence := confidence + 3;
    }
    var indicator := FindIndicator(Lower(t));
    if indicator {
      confidence := confidence + 2;
    }
    if IsUpperStr(t) && words <= 5 {
      confidence := confidence + 2;
    } else if IsTitleStr(t) {
      confidence := confidence + 1;
    }
    var marks := CountPunctuation(t);
    if marks == 0 {
      confidence := confidence + 2;
    } else if 2 * marks > words {
      confidence := confidence - 3;
    }
  }

  /** is_likely_heading: the text terms, then the context terms, then the
      level and the decision. */
  method IsLikelyHeading(text: string, ctx: Context) returns (v: Verdict)
    requires Divisible(ctx)
    ensures v == Likely(text, ctx)
  {
    var t := Strip(text);
    if |t| < 2 {
      return Verdict(false, 0, 3);
    }
    var confidence := ScoreText(t);
    if ctx.size.Some? {
      var ratio := ctx.size.value.fontSize as real / ctx.size.value.avgSize;
      if ratio > 1.2 {
        confidence := confidence + 3;
      } else if ratio > 1.1 {
        confidence := confidence + 1;
      }
    }
    if ctx.lineStart {
      confidence := confidence + 1;
    }
    if ctx.isolated {
      confidence := confidence + 2;
    }
    assert confidence == Confidence(t, ctx);
    var level := 3;
    if confidence > 7 {
      level := 2;
    } else if confidence > 9 {
      level := 1;
    }
    v := Verdict(confidence > 4, confidence, level);
  }

  /** A stripped text of at most three words and thirty characters with no
      punctuation scores at least 0.8, so it is an "H2" heading in every
      context. */
  lemma ShortPlainIsH2(text: string, ctx: Context)
    requires Divisible(ctx)
    requires var t := Strip(text);
      |t| >= 2 && WordCount(t) <= 3 && |t| <= 30 && Filter(t, IsPunct) == []
    ensures Likely(text, ctx).isHeading && Likely(text, ctx).level == 2
  {
    var t := Strip(text);
    TextScoreFloor(t, WordCount(t), |Filter(t, IsPunct)|);
  }

  /** The pattern, indicator and case terms never lower the text score. */
  lemma TextScoreFloor(t: string, words: nat, marks: nat)
    requires words == WordCount(t) && marks == |Filter(t, IsPunct)|
    ensures TextScore(t) >= LengthScore(words, |t|) + PunctScore(marks, words)
  {
  }

  /** Bold text has no size in its context; a bold text of more than fifteen
      words and a hundred characters scores at most 0.4 and is never a
      heading. */
  lemma LongBoldTextRejected(text: string, ctx: Context)
    requires ctx.size.None?
    requires var t := Strip(text); WordCount(t) > 15 && |t| > 100
    ensures !Likely(text, ctx).isHeading
  {
    var t := Strip(text);
    LongTextCeiling(t);
    assert ContextScore(ctx) <= 3;
    assert Confidence(t, ctx) <= 4;
  }

  /** More than fifteen words and a hundred characters cost 7, which the
      pattern, indicator, case and punctuation terms (at most 8) cannot
      outweigh by more than 1. */
  lemma LongTextCeiling(t: string)
    requires WordCount(t) > 15 && |t| > 100
    ensures TextScore(t) <= 1
  {
    var words := WordCount(t);
    var marks := |Filter(t, IsPunct)|;
    TextScoreTerms(t);
    LongLengthScore(words, |t|);
    CaseScoreOfLongText(t, words);
    PunctScoreAtMostTwo(marks, words);
    MatchBonusesAtMostFive(t, LengthScore(words, |t|), CaseScore(t, words), PunctScore(marks, words));
  }

  lemma LongLengthScore(words: nat, chars: nat)
    requires words > 15 && chars > 100
    ensures LengthScore(words, chars) == -7
  {
  }

  lemma PunctScoreAtMostTwo(marks: nat, words: nat)
    ensures PunctScore(marks, words) <= 2
  {
  }

  /** The five terms of the text score. */
  lemma TextScoreTerms(t: string)
    ensures var words := WordCount(t);
      TextScore(t) == LengthScore(words, |t|) + (if AnyMatch(RecipePatterns, t) then 3 else 0) +
        (if HasIndicator(Lower(t)) then 2 else 0) + CaseScore(t, words) + PunctScore(|Filter(t, IsPunct)|, words)
  {
  }

  /** The pattern and indicator terms add at most 5. */
  lemma MatchBonusesAtMostFive(t: string, length: int, cased: int, punct: int)
    ensures length + (if AnyMatch(RecipePatterns, t) then 3 else 0) + (if HasIndicator(Lower(t)) then 2 else 0) + cased + punct
      <= length + 5 + cased + punct
  {
  }

  /** Upper case earns 2 only for at most five words. */
  lemma CaseScoreOfLongText(t: string, words: nat)
    requires words > 5
    ensures CaseScore(t, words) <= 1
  {
    if IsTitleStr(t) {
      assert CaseScore(t, words) == 1;
    } else {
      assert CaseScore(t, words) == 0;
    }
  }

  /** Starting a line and standing alone only add confidence: a heading
      stays a heading, and an "H2" stays an "H2". */
  lemma ContextMonotone(text: string, a: Context, b: Context)
    requires Divisible(a) && b.size == a.size
    requires (a.lineStart ==> b.lineStart) && (a.isolated ==> b.isolated)
    ensures Likely(text, a).confidence <= Likely(text, b).confidence
    ensures Likely(text, a).isHeading ==> Likely(text, b).isHeading
    ensures Likely(text, a).level == 2 ==> Likely(text, b).level == 2
  {
  }

  /** Dividing by a positive average keeps the order of font sizes. */
  lemma RatioMonotone(small: int, large: int, avg: real)
    requires avg > 0.0 && small <= large
    ensures small as real / avg <= large as real / avg
  {
    var d := (large - small) as real / avg;
    assert d >= 0.0;
    assert large as real / avg == small as real / avg + d;
  }

  /** With the same positive average, a larger font never lowers the
      confidence. */
  lemma FontSizeMonotone(text: string, small: int, large: int, avg: real, lineStart: bool, isolated: bool)
    requires avg > 0.0 && small <= large
    ensures var a := Context(Some(SizeRatio(small, avg)), lineStart, isolated);
      var b := Context(Some(SizeRatio(large, avg)), lineStart, isolated);
      Likely(text, a).confidence <= Likely(text, b).confidence
  {
    var a := Context(Some(SizeRatio(small, avg)), lineStart, isolated);
    var b := Context(Some(SizeRatio(large, avg)), lineStart, isolated);
    SizeScoreMonotone(small, large, avg);
    assert ContextScore(a) <= ContextScore(b);
  }

  /** A larger font over the same positive average scores no lower. */
  lemma SizeScoreMonotone(small: int, large: int, avg: real)
    requires avg > 0.0 && small <= large
    ensures SizeScore(Some(SizeRatio(small, avg))) <= SizeScore(Some(SizeRatio(large, avg)))
  {
    RatioMonotone(small, large, avg);
  }

  // ---------------------------------------------------------------------
  // re.findall(r'\*\*(.*?)\*\*', line)

  predicate StarsAt(s: string, k: nat) { k + 1 < |s| && s[k] == '*' && s[k + 1] == '*' }

  /** Where the lazy `(.*?)\*\*` started at `j` stops: the first "**" at or
      after `j`, unless a newline comes before it. */
  function CloseFrom(s: string, j: nat): (k: Option<nat>)
    ensures k.Some? ==> j <= k.value && StarsAt(s, k.value)
    ensures k.Some? ==> forall m :: j <= m < k.value ==> !StarsAt(s, m) && s[m] != '\n'
    ensures k.None? ==> forall m :: j <= m && StarsAt(s, m) ==> !NoNewline(s[j..m])
    decreases |s| - j
  {
    if j + 1 >= |s| then None
    else if StarsAt(s, j) then Some(j)
    else if s[j] == '\n' then None
    else CloseFrom(s, j + 1)
  }

  /** The bold groups of `s` from position `i`, scanning left to right and
      resuming after each match. */
  function BoldFrom(s: string, i: nat): (ms: seq<string>)
    ensures forall k :: 0 <= k < |ms| ==> NoNewline(ms[k])
    decreases |s| - i
  {
    if i + 1 >= |s| then []
    else if StarsAt(s, i) then
      match CloseFrom(s, i + 2)
      case Some(k) => [s[i + 2..k]] + BoldFrom(s, k + 2)
      case None => BoldFrom(s, i + 1)
    else BoldFrom(s, i + 1)
  }

  /** No "**" inside, and no '*' at the end to pair with a closing "**". */
  predicate Unstarred(x: string) {
    (forall m :: 0 <= m < |x| ==> !StarsAt(x, m)) && (x == [] || x[|x| - 1] != '*')
  }

  /** The scan for the closing "**" runs up to the first one. */
  lemma {:induction false} CloseFromFirst(s: string, j: nat, k: nat)
    requires j <= k && StarsAt(s, k)
    requires forall m :: j <= m < k ==> !StarsAt(s, m) && s[m] != '\n'
    ensures CloseFrom(s, j) == Some(k)
    decreases k - j
  {
    if j < k {
      CloseFromFirst(s, j + 1, k);
    }
  }

  /** A whole line `**x**` holds exactly one bold group, `x`. */
  lemma WrappedBold(x: string)
    requires Unstarred(x) && NoNewline(x)
    ensures BoldFrom("**" + x + "**", 0) == [x]
  {
    var s := "**" + x + "**";
    var k := |x| + 2;
    forall m | 2 <= m < k ensures !StarsAt(s, m) && s[m] != '\n' {
      assert s[m] == x[m - 2];
      if m + 1 < k {
        assert s[m + 1] == x[m - 1];
        assert !StarsAt(x, m - 2);
      }
    }
    assert StarsAt(s, k);
    CloseFromFirst(s, 2, k);
    assert s[2..k] == x;
  }

  // ---------------------------------------------------------------------
  // extract_bold_headings

  /** The context of a bold group: whether its stripped line starts with
      "**" and whether the group is the whole stripped line. */
  function BoldContext(line: string, bold: string): (ctx: Context)
    ensures Divisible(ctx)
  {
    var t := Strip(line);
    Context(None, StartsWith(t, "**"), |t| == |bold| + 4)
  }

  /** A bold group whose cleaned text is likely a heading. */
  function BoldEntry(line: string, bold: string, page: int): Option<Entry> {
    var cleaned := Clean(bold, false);
    if cleaned == [] then None
    else
      var v := Likely(cleaned, BoldContext(line, bold));
      if v.isHeading then Some(Entry(v.level, cleaned, page)) else None
  }

  function BoldEntries(line: string, groups: seq<string>, page: int): seq<Entry> {
    if groups == [] then []
    else BoldEntries(line, groups[..|groups| - 1], page) + Listed(BoldEntry(line, groups[|groups| - 1], page))
  }

  /** A line that matches `^#+\s` once stripped gives nothing; any other
      line gives its bold groups that are likely headings. */
  function BoldLineHeadings(line: string, page: int): seq<Entry> {
    if AtxMatch(line).Some? then [] else BoldEntries(line, BoldFrom(line, 0), page)
  }

  function BoldHeadingsOf(lines: seq<string>, page: int): seq<Entry> {
    if lines == [] then []
    else BoldHeadingsOf(lines[..|lines| - 1], page) + BoldLineHeadings(lines[|lines| - 1], page)
  }

  lemma BoldHeadingsOfSnoc(lines: seq<string>, i: nat, page: int)
    requires i < |lines|
    ensures BoldHeadingsOf(lines[..i + 1], page) == BoldHeadingsOf(lines[..i], page) + BoldLineHeadings(lines[i], page)
  {
    assert lines[..i + 1][..i] == lines[..i];
  }

  lemma BoldEntriesSnoc(line: string, groups: seq<string>, j: nat, page: int)
    requires j < |groups|
    ensures BoldEntries(line, groups[..j + 1], page) == BoldEntries(line, groups[..j], page) + Listed(BoldEntry(line, groups[j], page))
  {
    assert groups[..j + 1][..j] == groups[..j];
  }

  /** The groups loop of extract_bold_headings for one line. */
  method BoldLine(line: string, page: int) returns (headings: seq<Entry>)
    ensures headings == BoldLineHeadings(line, page)
  {
    headings := [];
    if AtxMatch(line).Some? {
      return;
    }
    var groups := BoldFrom(line, 0);
    for j := 0 to |groups|
      invariant headings == BoldEntries(line, groups[..j], page)
    {
      BoldEntriesSnoc(line, groups, j, page);
      var cleaned := Clean(groups[j], false);
      if cleaned == [] {
        assert BoldEntry(line, groups[j], page) == None;
        continue;
      }
      var v := IsLikelyHeading(cleaned, BoldContext(line, groups[j]));
      assert BoldEntry(line, groups[j], page) == if v.isHeading then Some(Entry(v.level, cleaned, page)) else None;
      if v.isHeading {
        headings := headings + [Entry(v.level, cleaned, page)];
      }
    }
    assert groups[..|groups|] == groups;
  }

  /** extract_bold_headings */
  method ExtractBoldHeadings(markdown: string, page: int) returns (headings: seq<Entry>)
    ensures headings == BoldHeadingsOf(SplitLines(markdown), page)
  {
    var lines := SplitLines(markdown);
    headings := [];
    for i := 0 to |lines|
      invariant headings == BoldHeadingsOf(lines[..i], page)
    {
      BoldHeadingsOfSnoc(lines, i, page);
      var found := BoldLine(lines[i], page);
      headings := headings + found;
    }
    assert lines[..|lines|] == lines;
  }

  /** What the scored passes produce: an "H2" or "H3" entry with a non-empty
      cleaned text, on the given page. */
  predicate ScoredHeading(e: Entry, page: int) {
    (e.level == 2 || e.level == 3) && e.text != [] && Collapsed(e.text) && e.page == page
  }

  predicate AllScored(hs: seq<Entry>, page: int) {
    forall k :: 0 <= k < |hs| ==> ScoredHeading(hs[k], page)
  }

  lemma AllScoredConcat(a: seq<Entry>, b: seq<Entry>, page: int)
    requires AllScored(a, page) && AllScored(b, page)
    ensures AllScored(a + b, page)
  {
    forall k | |a| <= k < |a + b| ensures ScoredHeading((a + b)[k], page) {
      assert (a + b)[k] == b[k - |a|];
    }
  }

  lemma {:induction false} BoldEntriesScored(line: string, groups: seq<string>, page: int)
    ensures AllScored(BoldEntries(line, groups, page), page)
    decreases |groups|
  {
    if groups != [] {
      BoldEntriesScored(line, groups[..|groups| - 1], page);
      AllScoredConcat(BoldEntries(line, groups[..|groups| - 1], page), Listed(BoldEntry(line, groups[|groups| - 1], page)), page);
    }
  }

  /** Bold headings are "H2" or "H3" entries with non-empty cleaned texts
      on their page: never "H1". */
  lemma {:induction false} BoldHeadingsScored(lines: seq<string>, page: int)
    ensures AllScored(BoldHeadingsOf(lines, page), page)
    decreases |lines|
  {
    if lines != [] {
      var line := lines[|lines| - 1];
      BoldHeadingsScored(lines[..|lines| - 1], page);
      BoldEntriesScored(line, BoldFrom(line, 0), page);
      AllScoredConcat(BoldHeadingsOf(lines[..|lines| - 1], page), BoldLineHeadings(line, page), page);
    }
  }

  /** A line that starts and ends with '*' is no Markdown heading line. */
  lemma StarLineNotAtx(line: string)
    requires line != [] && line[0] == '*' && line[|line| - 1] == '*'
    ensures AtxMatch(line).None?
  {
    StripOfTrimmed(line);
    assert RunFrom(line, 0, IsHash) == 0;
  }

  /** A short bold group without punctuation is an "H2" entry. */
  lemma ShortBoldEntry(line: string, x: string, page: int)
    requires var c := Clean(x, false);
      |c| >= 2 && WordCount(c) <= 3 && |c| <= 30 && Filter(c, IsPunct) == []
    ensures BoldEntry(line, x, page) == Some(Entry(2, Clean(x, false), page))
  {
    var c := Clean(x, false);
    StripOfTrimmed(c);
    ShortPlainIsH2(c, BoldContext(line, x));
  }

  /** A line that is only `**x**`, where the cleaned `x` is a short text
      without punctuation, gives exactly one "H2" heading, the cleaned `x`. */
  lemma WholeBoldLine(x: string, page: int)
    requires Unstarred(x) && NoNewline(x)
    requires var c := Clean(x, false);
      |c| >= 2 && WordCount(c) <= 3 && |c| <= 30 && Filter(c, IsPunct) == []
    ensures BoldLineHeadings("**" + x + "**", page) == [Entry(2, Clean(x, false), page)]
  {
    var line := "**" + x + "**";
    StarLineNotAtx(line);
    WrappedBold(x);
    ShortBoldEntry(line, x, page);
    SingleGroup(line, x, page);
  }

  lemma SingleGroup(line: string, x: string, page: int)
    ensures BoldEntries(line, [x], page) == Listed(BoldEntry(line, x, page))
  {
    assert [x][..0] == [];
  }

  // ---------------------------------------------------------------------
  // extract_pdf_structure_headings

  /** The sizes of a line's spans. */
  function SpanSizes(spans: seq<Span>): (r: seq<int>)
    ensures |r| == |spans| && forall k :: 0 <= k < |spans| ==> r[k] == spans[k].size
  {
    seq(|spans|, k requires 0 <= k < |spans| => spans[k].size)
  }

  /** Every span size of the page, line by line. */
  function PageSizes(lines: seq<Line>): seq<int> {
    if lines == [] then [] else PageSizes(lines[..|lines| - 1]) + SpanSizes(lines[|lines| - 1].spans)
  }

  /** The average span size; 12 points for a page without spans. */
  function PageAverage(lines: seq<Line>): real {
    var sizes := PageSizes(lines);
    if sizes == [] then 1200.0 else Mean(sizes)
  }

  /** `max_font_size`, starting from 0. */
  function LineMaxSize(spans: seq<Span>): (m: int)
    ensures m >= 0 && forall k :: 0 <= k < |spans| ==> spans[k].size <= m
    ensures m == 0 || exists k :: 0 <= k < |spans| && spans[k].size == m
  {
    if spans == [] then 0
    else
      var init := spans[..|spans| - 1];
      var m := LineMaxSize(init);
      assert forall k :: 0 <= k < |init| ==> init[k] == spans[k];
      Max(m, spans[|spans| - 1].size)
  }

  /** Some span of the line has the bold flag. */
  predicate LineBold(spans: seq<Span>) {
    exists k :: 0 <= k < |spans| && BoldFlag(spans[k].flags)
  }

  /** A line is scored when it is bold or its largest span exceeds 1.2
      times the average. */
  predicate Candidate(l: Line, avg: real) {
    LineBold(l.spans) || LineMaxSize(l.spans) as real > avg * 1.2
  }

  /** One line: nothing, its heading, or None when the size ratio divides
      by a zero average (ZeroDivisionError). is_likely_heading returns
      before that division for a text shorter than two characters. */
  function StructureLine(l: Line, avg: real, page: int): Option<seq<Entry>> {
    var text := Clean(JoinSpans(l.spans), false);
    if text == [] || !Candidate(l, avg) then Some([])
    else if |Strip(text)| < 2 then Some([])
    else if avg == 0.0 then None
    else
      var v := Likely(text, Context(Some(SizeRatio(LineMaxSize(l.spans), avg)), true, true));
      Some(if v.isHeading then [Entry(v.level, text, page)] else [])
  }

  /** The headings of the lines, in line order; None when a line fails. */
  function StructureOf(lines: seq<Line>, avg: real, page: int): Option<seq<Entry>> {
    if lines == [] then Some([])
    else match StructureOf(lines[..|lines| - 1], avg, page)
      case None => None
      case Some(hs) =>
        match StructureLine(lines[|lines| - 1], avg, page)
        case None => None
        case Some(h) => Some(hs + h)
  }

  function StructureHeadings(lines: seq<Line>, page: int): Option<seq<Entry>> {
    StructureOf(lines, PageAverage(lines), page)
  }

  lemma StructureOfSnoc(lines: seq<Line>, i: nat, avg: real, page: int)
    requires i < |lines|
    ensures StructureOf(lines[..i + 1], avg, page) ==
      match StructureOf(lines[..i], avg, page)
      case None => None
      case Some(hs) =>
        match StructureLine(lines[i], avg, page)
        case None => None
        case Some(h) => Some(hs + h)
  {
    assert lines[..i + 1][..i] == lines[..i];
  }

  /** A line that fails makes the whole page fail. */
  lemma {:induction false} StructureOfFails(lines: seq<Line>, i: nat, avg: real, page: int)
    requires i <= |lines| && StructureOf(lines[..i], avg, page).None?
    ensures StructureOf(lines, avg, page).None?
    decreases |lines| - i
  {
    if i == |lines| {
      assert lines[..i] == lines;
    } else {
      StructureOfSnoc(lines, i, avg, page);
      StructureOfFails(lines, i + 1, avg, page);
    }
  }

  lemma PageSizesSnoc(lines: seq<Line>, i: nat)
    requires i < |lines|
    ensures PageSizes(lines[..i + 1]) == PageSizes(lines[..i]) + SpanSizes(lines[i].spans)
  {
    assert lines[..i + 1][..i] == lines[..i];
  }

  lemma JoinSpansSnoc(spans: seq<Span>, j: nat)
    requires j < |spans|
    ensures JoinSpans(spans[..j + 1]) == JoinSpans(spans[..j]) + spans[j].text
  {
    assert spans[..j + 1][..j] == spans[..j];
  }

  lemma LineMaxSizeSnoc(spans: seq<Span>, j: nat)
    requires j < |spans|
    ensures LineMaxSize(spans[..j + 1]) == Max(LineMaxSize(spans[..j]), spans[j].size)
  {
    assert spans[..j + 1][..j] == spans[..j];
  }

  lemma LineBoldSnoc(spans: seq<Span>, j: nat)
    requires j < |spans|
    ensures LineBold(spans[..j + 1]) == (LineBold(spans[..j]) || BoldFlag(spans[j].flags))
  {
    var a := spans[..j + 1];
    if LineBold(a) && !BoldFlag(spans[j].flags) {
      var k :| 0 <= k < |a| && BoldFlag(a[k].flags);
      assert spans[..j][k] == a[k];
    }
    if LineBold(spans[..j]) {
      var k :| 0 <= k < j && BoldFlag(spans[..j][k].flags);
      assert a[k] == spans[..j][k];
    }
    if BoldFlag(spans[j].flags) {
      assert a[j] == spans[j];
    }
  }

  /** The spans loop of the second pass: the line's text, its largest size
      and whether any span is bold. */
  method ScanLine(spans: seq<Span>) returns (text: string, maxSize: int, bold: bool)
    ensures text == JoinSpans(spans) && maxSize == LineMaxSize(spans) && bold == LineBold(spans)
  {
    text, maxSize, bold := [], 0, false;
    for j := 0 to |spans|
      invariant text == JoinSpans(spans[..j]) && maxSize == LineMaxSize(spans[..j])
      invariant bold == LineBold(spans[..j])
    {
      JoinSpansSnoc(spans, j);
      LineMaxSizeSnoc(spans, j);
      LineBoldSnoc(spans, j);
      text := text + spans[j].text;
      maxSize := Max(maxSize, spans[j].size);
      if BoldFlag(spans[j].flags) {
        bold := true;
      }
    }
    assert spans[..|spans|] == spans;
  }

  /** The first pass: every span size of the page. */
  method CollectSizes(lines: seq<Line>) returns (sizes: seq<int>)
    ensures sizes == PageSizes(lines)
  {
    sizes := [];
    for i := 0 to |lines|
      invariant sizes == PageSizes(lines[..i])
    {
      PageSizesSnoc(lines, i);
      var spans := lines[i].spans;
      var j := 0;
      while j < |spans|
        invariant j <= |spans|
        invariant sizes == PageSizes(lines[..i]) + SpanSizes(spans)[..j]
      {
        sizes := sizes + [spans[j].size];
        j := j + 1;
      }
      assert SpanSizes(spans)[..j] == SpanSizes(spans);
    }
    assert lines[..|lines|] == lines;
  }

  /** The body of the second pass for one line. */
  method ScoreLine(l: Line, avg: real, page: int) returns (r: Option<seq<Entry>>)
    ensures r == StructureLine(l, avg, page)
  {
    var text, maxSize, bold := ScanLine(l.spans);
    var cleaned := Clean(text, false);
    if cleaned == [] {
      return Some([]);
    }
    if bold || maxSize as real > avg * 1.2 {
      if |Strip(cleaned)| < 2 {
        return Some([]);
      }
      if avg == 0.0 {
        return None;
      }
      var v := IsLikelyHeading(cleaned, Context(Some(SizeRatio(maxSize, avg)), true, true));
      if v.isHeading {
        return Some([Entry(v.level, cleaned, page)]);
      }
    }
    r := Some([]);
  }

  /** The first pass and the average: `sum(sizes) / len(sizes)`, 12 when
      the page has no span. */
  method AverageSize(lines: seq<Line>) returns (avg: real)
    ensures avg == PageAverage(lines)
  {
    var sizes := CollectSizes(lines);
    avg := if sizes != [] then Sum(sizes) as real / |sizes| as real else 1200.0;
  }

  /** The second pass: None as soon as a line raises ZeroDivisionError. */
  method ScoreLines(lines: seq<Line>, avg: real, page: int) returns (r: Option<seq<Entry>>)
    ensures r == StructureOf(lines, avg, page)
  {
    var headings := [];
    for i := 0 to |lines|
      invariant StructureOf(lines[..i], avg, page) == Some(headings)
    {
      StructureOfSnoc(lines, i, avg, page);
      var found := ScoreLine(lines[i], avg, page);
      if found.None? {
        StructureOfFails(lines, i + 1, avg, page);
        return None;
      }
      headings := headings + found.value;
    }
    assert lines[..|lines|] == lines;
    r := Some(headings);
  }

  /** extract_pdf_structure_headings: None when it raises
      ZeroDivisionError. */
  method ExtractStructureHeadings(lines: seq<Line>, page: int) returns (r: Option<seq<Entry>>)
    ensures r == StructureHeadings(lines, page)
  {
    var avg := AverageSize(lines);
    r := ScoreLines(lines, avg, page);
  }

  /** Structure headings are "H2" or "H3" entries with non-empty cleaned
      texts on their page. */
  lemma {:induction false} StructureScored(lines: seq<Line>, avg: real, page: int)
    ensures StructureOf(lines, avg, page).Some? ==> AllScored(StructureOf(lines, avg, page).value, page)
    decreases |lines|
  {
    if lines != [] {
      var init := StructureOf(lines[..|lines| - 1], avg, page);
      var last := StructureLine(lines[|lines| - 1], avg, page);
      StructureScored(lines[..|lines| - 1], avg, page);
      StructureLineScored(lines[|lines| - 1], avg, page);
      if init.Some? && last.Some? {
        AllScoredConcat(init.value, last.value, page);
      }
    }
  }

  lemma StructureLineScored(l: Line, avg: real, page: int)
    ensures StructureLine(l, avg, page).Some? ==> AllScored(StructureLine(l, avg, page).value, page)
  {
    var text := Clean(JoinSpans(l.spans), false);
    if text != [] && Candidate(l, avg) && |Strip(text)| >= 2 && avg != 0.0 {
      var v := Likely(text, Context(Some(SizeRatio(LineMaxSize(l.spans), avg)), true, true));
      assert StructureLine(l, avg, page) == Some(if v.isHeading then [Entry(v.level, text, page)] else []);
      VerdictScored(v, text, page);
    }
  }

  /** The entry of a verdict on a cleaned, non-empty text is scored. */
  lemma VerdictScored(v: Verdict, text: string, page: int)
    requires (v.level == 2 || v.level == 3) && text != [] && Collapsed(text)
    ensures AllScored(if v.isHeading then [Entry(v.level, text, page)] else [], page)
  {
  }

  /** A line fails exactly when it is scored, its text has at least two
      characters and the average is zero: a shorter text returns from
      is_likely_heading before the division. */
  lemma StructureLineFails(l: Line, avg: real, page: int)
    ensures StructureLine(l, avg, page).None? <==>
      avg == 0.0 && Candidate(l, avg) && |Strip(Clean(JoinSpans(l.spans), false))| >= 2
  {
  }

  /** The pass fails exactly when one of its lines does. */
  lemma {:induction false} StructureOfNoneIff(lines: seq<Line>, avg: real, page: int)
    ensures StructureOf(lines, avg, page).None? <==>
      exists k :: 0 <= k < |lines| && StructureLine(lines[k], avg, page).None?
    decreases |lines|
  {
    if lines != [] {
      var init := lines[..|lines| - 1];
      StructureOfNoneIff(init, avg, page);
      if StructureOf(init, avg, page).None? {
        var k :| 0 <= k < |init| && StructureLine(init[k], avg, page).None?;
        assert lines[k] == init[k];
      }
      if exists k :: 0 <= k < |lines| && StructureLine(lines[k], avg, page).None? {
        var k :| 0 <= k < |lines| && StructureLine(lines[k], avg, page).None?;
        if k < |init| {
          assert init[k] == lines[k];
        }
      }
    }
  }

  /** Only a zero average can make the pass fail. */
  lemma {:induction false} StructureOfNonZero(lines: seq<Line>, avg: real, page: int)
    requires avg != 0.0
    ensures StructureOf(lines, avg, page).Some?
    decreases |lines|
  {
    if lines != [] {
      StructureOfNonZero(lines[..|lines| - 1], avg, page);
    }
  }

  /** Positive span sizes give a positive average, so the pass never
      fails. */
  lemma PositiveSizesNeverFail(lines: seq<Line>, page: int)
    requires forall k :: 0 <= k < |PageSizes(lines)| ==> PageSizes(lines)[k] > 0
    ensures StructureHeadings(lines, page).Some?
  {
    var sizes := PageSizes(lines);
    if sizes != [] {
      MeanBetween(sizes);
    }
    StructureOfNonZero(lines, PageAverage(lines), page);
  }

  /** A page without a bold line or a line above 1.2 times the average
      has no structure heading. */
  lemma {:induction false} PlainPageNoHeadings(lines: seq<Line>, avg: real, page: int)
    requires forall k :: 0 <= k < |lines| ==> !Candidate(lines[k], avg)
    ensures StructureOf(lines, avg, page) == Some([])
    decreases |lines|
  {
    if lines != [] {
      var init := lines[..|lines| - 1];
      assert forall k :: 0 <= k < |init| ==> init[k] == lines[k];
      PlainPageNoHeadings(init, avg, page);
      assert StructureLine(lines[|lines| - 1], avg, page) == Some([]);
      var none: seq<Entry> := [];
      assert none + none == none;
    }
  }

  // ---------------------------------------------------------------------
  // process_pdf

  /** What process_pdf reads of a document: its file name, its metadata
      title, its table of contents and its pages. */
  datatype Document = Document(name: string, metadata: Option<string>, toc: seq<TocItem>, pages: seq<Page>)

  /** The JSON result: a title and an outline. */
  datatype Outline = Outline(title: string, outline: seq<Entry>)

  /** One page of the bold analysis: its bold headings, then its structure
      headings; None when the structure pass fails. */
  function PageBoldPass(p: Page, i: nat): Option<seq<Entry>> {
    match StructureHeadings(p.lines, i)
    case None => None
    case Some(hs) => Some(BoldHeadingsOf(SplitLines(p.markdown), i) + hs)
  }

  function BoldPassOf(pages: seq<Page>): Option<seq<Entry>> {
    if pages == [] then Some([])
    else match BoldPassOf(pages[..|pages| - 1])
      case None => None
      case Some(hs) =>
        match PageBoldPass(pages[|pages| - 1], |pages| - 1)
        case None => None
        case Some(h) => Some(hs + h)
  }

  /** The deduplication key: the stripped text and the page. */
  function StrippedKey(e: Entry): (string, int) { (Strip(e.text), e.page) }

  function Codes(s: string): (r: seq<int>)
    ensures |r| == |s| && forall k :: 0 <= k < |s| ==> r[k] == s[k] as int
  {
    seq(|s|, k requires 0 <= k < |s| => s[k] as int)
  }

  /** The sort key `(page, text)`, texts compared by code point. */
  function PageTextKey(e: Entry): seq<int> { [e.page] + Codes(e.text) }

  /** The first heading of each key, sorted by page and then text. */
  function BoldOutline(all: seq<Entry>): seq<Entry> {
    SortBy(FirstOccurrences(all, StrippedKey, {}), PageTextKey)
  }

  /** One space is appended to a text that does not already end with one. */
  function SpaceTerminated(e: Entry): (r: Entry)
    ensures r.level == e.level && r.page == e.page && EndsWith(r.text, " ")
    ensures EndsWith(e.text, " ") ==> r == e
    ensures !EndsWith(e.text, " ") ==> r.text == e.text + " "
  {
    if EndsWith(e.text, " ") then e else e.(text := e.text + " ")
  }

  function SpaceAll(hs: seq<Entry>): (r: seq<Entry>)
    ensures |r| == |hs| && forall k :: 0 <= k < |hs| ==> r[k] == SpaceTerminated(hs[k])
  {
    seq(|hs|, k requires 0 <= k < |hs| => SpaceTerminated(hs[k]))
  }

  /** The outline: the table of contents when it has more than two
      entries, else the Markdown headings, else the bold analysis. */
  function OutlineOf(doc: Document): Option<seq<Entry>> {
    if |doc.toc| > 2 then Some(TocOutline(doc.toc, false))
    else
      var md := MarkdownHeadingsOf(doc.pages, false);
      if md != [] then Some(SpaceAll(md))
      else match BoldPassOf(doc.pages)
        case None => None
        case Some(all) => Some(SpaceAll(BoldOutline(all)))
  }

  /** process_pdf; None when the structure pass raises. */
  function Processed(doc: Document): Option<Outline> {
    if doc.name == "file01.pdf" then Some(Outline("Application form for grant of LTC advance ", []))
    else if doc.name == "file05.pdf" then Some(Outline([], [Entry(1, "HOPE TO SEE YOU THERE! ", 0)]))
    else match OutlineOf(doc)
      case None => None
      case Some(outline) =>
        var title := FallbackTitle(BestTitle(doc.metadata, doc.pages, false), outline);
        Some(Outline(if title != [] then Strip(title) + " " else [], outline))
  }

  lemma BoldPassSnoc(pages: seq<Page>, i: nat)
    requires i < |pages|
    ensures BoldPassOf(pages[..i + 1]) ==
      match BoldPassOf(pages[..i])
      case None => None
      case Some(hs) =>
        match PageBoldPass(pages[i], i)
        case None => None
        case Some(h) => Some(hs + h)
  {
    assert pages[..i + 1][..i] == pages[..i];
    assert |pages[..i + 1]| - 1 == i;
  }

  lemma {:induction false} BoldPassFails(pages: seq<Page>, i: nat)
    requires i <= |pages| && BoldPassOf(pages[..i]).None?
    ensures BoldPassOf(pages).None?
    decreases |pages| - i
  {
    if i == |pages| {
      assert pages[..i] == pages;
    } else {
      BoldPassSnoc(pages, i);
      BoldPassFails(pages, i + 1);
    }
  }

  /** The page loop of the bold analysis: bold headings, then structure
      headings, page after page. */
  method BoldPass(pages: seq<Page>) returns (r: Option<seq<Entry>>)
    ensures r == BoldPassOf(pages)
  {
    var all := [];
    for i := 0 to |pages|
      invariant BoldPassOf(pages[..i]) == Some(all)
    {
      BoldPassSnoc(pages, i);
      var bold := ExtractBoldHeadings(pages[i].markdown, i);
      var structure := ExtractStructureHeadings(pages[i].lines, i);
      if structure.None? {
        BoldPassFails(pages, i + 1);
        return None;
      }
      all := all + (bold + structure.value);
    }
    assert pages[..|pages|] == pages;
    r := Some(all);
  }

  /** The trailing-space loop, updating each entry in place. */
  method AddTrailingSpaces(outline: seq<Entry>) returns (r: seq<Entry>)
    ensures r == SpaceAll(outline)
  {
    r := outline;
    for i := 0 to |r|
      invariant |r| == |outline|
      invariant forall k :: 0 <= k < i ==> r[k] == SpaceTerminated(outline[k])
      invariant forall k :: i <= k < |r| ==> r[k] == outline[k]
    {
      if !EndsWith(r[i].text, " ") {
        r := r[i := r[i].(text := r[i].text + " ")];
      }
    }
  }

  /** The outline branches of process_pdf. */
  method ComputeOutline(doc: Document) returns (r: Option<seq<Entry>>)
    ensures r == OutlineOf(doc)
  {
    if |doc.toc| > 2 {
      var toc := TocEntries(doc.toc, false);
      return Some(toc);
    }
    var outline := CollectMarkdownHeadings(doc.pages, false);
    if outline == [] {
      var all := BoldPass(doc.pages);
      if all.None? {
        return None;
      }
      var unique := KeepFirst(all.value, StrippedKey);
      outline := SortBy(unique, PageTextKey);
    }
    outline := AddTrailingSpaces(outline);
    r := Some(outline);
  }

  /** process_pdf */
  method ProcessPdf(doc: Document) returns (r: Option<Outline>)
    ensures r == Processed(doc)
  {
    if doc.name == "file01.pdf" {
      return Some(Outline("Application form for grant of LTC advance ", []));
    }
    if doc.name == "file05.pdf" {
      return Some(Outline([], [Entry(1, "HOPE TO SEE YOU THERE! ", 0)]));
    }
    var outline := ComputeOutline(doc);
    if outline.None? {
      return None;
    }
    var title := GetBestTitle(doc.metadata, doc.pages, false);
    if title == [] && outline.value != [] {
      title := FallbackTitle(title, outline.value);
    }
    r := Some(Outline(if title != [] then Strip(title) + " " else [], outline.value));
  }

  // ---------------------------------------------------------------------
  // Properties of process_pdf

  /** Scored headings on the first `n` pages. */
  predicate ScoredPages(hs: seq<Entry>, n: int) {
    forall k :: 0 <= k < |hs| ==> 0 <= hs[k].page < n && ScoredHeading(hs[k], hs[k].page)
  }

  lemma ScoredPagesConcat(init: seq<Entry>, last: seq<Entry>, page: nat)
    requires ScoredPages(init, page) && AllScored(last, page)
    ensures ScoredPages(init + last, page + 1)
  {
    var hs := init + last;
    forall k | |init| <= k < |hs| ensures 0 <= hs[k].page < page + 1 && ScoredHeading(hs[k], hs[k].page) {
      assert hs[k] == last[k - |init|];
    }
  }

  lemma PageBoldPassScored(p: Page, i: nat)
    ensures PageBoldPass(p, i).Some? ==> AllScored(PageBoldPass(p, i).value, i)
  {
    var lines := SplitLines(p.markdown);
    BoldHeadingsScored(lines, i);
    StructureScored(p.lines, PageAverage(p.lines), i);
    if PageBoldPass(p, i).Some? {
      AllScoredConcat(BoldHeadingsOf(lines, i), StructureHeadings(p.lines, i).value, i);
    }
  }

  /** Every heading of the bold analysis is an "H2" or "H3" entry with a
      non-empty cleaned text, on an existing page. */
  lemma {:induction false} BoldPassScored(pages: seq<Page>)
    ensures BoldPassOf(pages).Some? ==> ScoredPages(BoldPassOf(pages).value, |pages|)
    decreases |pages|
  {
    if pages != [] {
      var i := |pages| - 1;
      BoldPassScored(pages[..i]);
      PageBoldPassScored(pages[i], i);
      var init := BoldPassOf(pages[..i]);
      var last := PageBoldPass(pages[i], i);
      if init.Some? && last.Some? {
        ScoredPagesConcat(init.value, last.value, i);
      }
    }
  }

  /** No page has a zero average font size. */
  predicate NonZeroAverages(pages: seq<Page>) {
    forall i :: 0 <= i < |pages| ==> PageAverage(pages[i].lines) != 0.0
  }

  lemma NonZeroPrefix(pages: seq<Page>, n: nat)
    requires n <= |pages| && NonZeroAverages(pages)
    ensures NonZeroAverages(pages[..n])
  {
    assert forall j :: 0 <= j < n ==> pages[..n][j] == pages[j];
  }

  lemma PageBoldPassNonZero(p: Page, i: nat)
    requires PageAverage(p.lines) != 0.0
    ensures PageBoldPass(p, i).Some?
  {
    StructureOfNonZero(p.lines, PageAverage(p.lines), i);
  }

  /** Only a page with a zero average can make the bold analysis fail. */
  lemma {:induction false} BoldPassNonZero(pages: seq<Page>)
    requires NonZeroAverages(pages)
    ensures BoldPassOf(pages).Some?
    decreases |pages|
  {
    if pages != [] {
      var i := |pages| - 1;
      NonZeroPrefix(pages, i);
      BoldPassNonZero(pages[..i]);
      PageBoldPassNonZero(pages[i], i);
    }
  }

  /** The bold analysis fails exactly when the structure pass of some
      page fails. */
  lemma BoldPassNoneIff(pages: seq<Page>)
    ensures BoldPassOf(pages).None? <==>
      exists i :: 0 <= i < |pages| && StructureHeadings(pages[i].lines, i).None?
  {
    PagePassesNoneIff(pages);
    forall i | 0 <= i < |pages|
      ensures PageBoldPass(pages[i], i).None? <==> StructureHeadings(pages[i].lines, i).None?
    {
    }
  }

  lemma {:induction false} PagePassesNoneIff(pages: seq<Page>)
    ensures BoldPassOf(pages).None? <==> exists i :: 0 <= i < |pages| && PageBoldPass(pages[i], i).None?
    decreases |pages|
  {
    if pages != [] {
      var n := |pages| - 1;
      var init := pages[..n];
      PagePassesNoneIff(init);
      BoldPassSnoc(pages, n);
      assert pages[..n + 1] == pages;
      if BoldPassOf(init).None? {
        var i :| 0 <= i < |init| && PageBoldPass(init[i], i).None?;
        assert pages[i] == init[i];
        assert BoldPassOf(pages).None?;
        assert 0 <= i < |pages| && PageBoldPass(pages[i], i).None?;
      } else if PageBoldPass(pages[n], n).None? {
        assert BoldPassOf(pages).None?;
        assert 0 <= n < |pages| && PageBoldPass(pages[n], n).None?;
      } else {
        assert BoldPassOf(pages).Some?;
        assert forall i :: 0 <= i < |init| ==> PageBoldPass(init[i], i).Some?;
        forall i | 0 <= i < |pages| ensures PageBoldPass(pages[i], i).Some? {
          if i < n {
            assert init[i] == pages[i];
            assert PageBoldPass(init[i], i).Some?;
          } else {
            assert i == n;
          }
        }
      }
    }
  }

  /** Sorting by `(page, text)` puts the pages in order. */
  lemma SortedPagesOrder(s: seq<Entry>)
    requires SortedBy(s, PageTextKey)
    ensures PagesNonDecreasing(s)
  {
    forall i, j | 0 <= i < j < |s| ensures s[i].page <= s[j].page {
      assert LexLe(PageTextKey(s[i]), PageTextKey(s[j]));
      assert PageTextKey(s[i])[0] == s[i].page && PageTextKey(s[j])[0] == s[j].page;
    }
  }

  lemma ScoredPagesMembers(a: seq<Entry>, b: seq<Entry>, n: int)
    requires ScoredPages(b, n) && forall x :: x in a ==> x in b
    ensures ScoredPages(a, n)
  {
    forall k | 0 <= k < |a| ensures 0 <= a[k].page < n && ScoredHeading(a[k], a[k].page) {
      assert a[k] in b;
      var m :| 0 <= m < |b| && b[m] == a[k];
    }
  }

  /** The first heading of each stripped text and page: scored headings,
      distinct keys, and every key of the input. */
  lemma KeptHeadings(all: seq<Entry>, n: int)
    requires ScoredPages(all, n)
    ensures var u := FirstOccurrences(all, StrippedKey, {});
      ScoredPages(u, n) && DistinctKeys(u, StrippedKey) && Keys(u, StrippedKey) == Keys(all, StrippedKey)
  {
    var u := FirstOccurrences(all, StrippedKey, {});
    FirstOccurrencesSubseq(all, StrippedKey, {});
    SubseqMembers(u, all);
    ScoredPagesMembers(u, all, n);
    FirstOccurrencesDistinct(all, StrippedKey, {});
    FirstOccurrencesKeys(all, StrippedKey, {});
  }

  /** Sorting keeps all of that and adds the order. */
  lemma SortedHeadings(u: seq<Entry>, n: int)
    requires ScoredPages(u, n) && DistinctKeys(u, StrippedKey)
    ensures var o := SortBy(u, PageTextKey);
      ScoredPages(o, n) && SortedBy(o, PageTextKey) && PagesNonDecreasing(o) &&
      DistinctKeys(o, StrippedKey) && Keys(o, StrippedKey) == Keys(u, StrippedKey)
  {
    var o := SortBy(u, PageTextKey);
    SortBySorted(u, PageTextKey);
    DistinctKeysPermutation(u, o, StrippedKey);
    KeysPermutation(u, o, StrippedKey);
    SortedPagesOrder(o);
    forall x | x in o ensures x in u {
      assert x in multiset(u);
    }
    ScoredPagesMembers(o, u, n);
  }

  /** The deduplicated, sorted bold outline: scored headings in page order,
      sorted by page then text, one per stripped text and page, and every
      such key of the input kept. */
  lemma BoldOutlineProperties(all: seq<Entry>, n: int)
    requires ScoredPages(all, n)
    ensures var o := BoldOutline(all);
      ScoredPages(o, n) && SortedBy(o, PageTextKey) && PagesNonDecreasing(o) &&
      DistinctKeys(o, StrippedKey) && Keys(o, StrippedKey) == Keys(all, StrippedKey)
  {
    KeptHeadings(all, n);
    SortedHeadings(FirstOccurrences(all, StrippedKey, {}), n);
  }

  /** The special-cased file names. */
  predicate Regular(doc: Document) {
    doc.name != "file01.pdf" && doc.name != "file05.pdf"
  }

  /** A table of contents with more than two entries is the outline. */
  lemma TocPreferred(doc: Document)
    requires Regular(doc) && |doc.toc| > 2
    ensures Processed(doc).Some? && Processed(doc).value.outline == TocOutline(doc.toc, false)
  {
  }

  /** A cleaned, non-empty text never ends with a space. */
  lemma CollapsedNoTrailingSpace(t: string)
    requires Collapsed(t) && t != []
    ensures !EndsWith(t, " ")
  {
  }

  /** Otherwise the Markdown headings, when there are any, are the outline,
      each with one space appended. */
  lemma MarkdownPreferred(doc: Document)
    requires Regular(doc) && |doc.toc| <= 2 && MarkdownHeadingsOf(doc.pages, false) != []
    ensures var md := MarkdownHeadingsOf(doc.pages, false);
      Processed(doc).Some? && |Processed(doc).value.outline| == |md| &&
      forall k :: 0 <= k < |md| ==> Processed(doc).value.outline[k] == md[k].(text := md[k].text + " ")
  {
    var md := MarkdownHeadingsOf(doc.pages, false);
    MarkdownHeadingsWellFormed(doc.pages, false);
    forall k | 0 <= k < |md| ensures SpaceTerminated(md[k]) == md[k].(text := md[k].text + " ") {
      CollapsedNoTrailingSpace(md[k].text);
    }
  }

  /** For a regular file, process_pdf succeeds exactly when the outline
      does, and returns that outline. */
  lemma ProcessedOutline(doc: Document)
    requires Regular(doc)
    ensures Processed(doc).Some? <==> OutlineOf(doc).Some?
    ensures Processed(doc).Some? ==> Processed(doc).value.outline == OutlineOf(doc).value
  {
  }

  /** Without either, the outline is the bold analysis, deduplicated,
      sorted and spaced; it fails only when the bold analysis does. */
  lemma BoldFallback(doc: Document)
    requires |doc.toc| <= 2 && MarkdownHeadingsOf(doc.pages, false) == []
    ensures OutlineOf(doc).Some? <==> BoldPassOf(doc.pages).Some?
    ensures OutlineOf(doc).Some? ==> OutlineOf(doc).value == SpaceAll(BoldOutline(BoldPassOf(doc.pages).value))
  {
  }

  /** Spacing keeps levels and pages. */
  lemma SpaceAllKeeps(b: seq<Entry>)
    ensures var o := SpaceAll(b);
      forall k :: 0 <= k < |o| ==> o[k].page == b[k].page && o[k].level == b[k].level
  {
  }

  /** The bold analysis never yields an "H1" and keeps its outline in page
      order. */
  lemma BoldFallbackNeverH1(doc: Document)
    requires Regular(doc) && |doc.toc| <= 2 && MarkdownHeadingsOf(doc.pages, false) == []
    requires Processed(doc).Some?
    ensures var o := Processed(doc).value.outline;
      PagesNonDecreasing(o) && forall k :: 0 <= k < |o| ==> o[k].level == 2 || o[k].level == 3
  {
    ProcessedOutline(doc);
    BoldFallback(doc);
    var all := BoldPassOf(doc.pages).value;
    BoldPassScored(doc.pages);
    BoldOutlineProperties(all, |doc.pages|);
    SpaceAllKeeps(BoldOutline(all));
  }

  /** Every entry's text ends with a space. */
  predicate AllSpaced(o: seq<Entry>) {
    forall k :: 0 <= k < |o| ==> EndsWith(o[k].text, " ")
  }

  lemma SpaceAllSpaced(hs: seq<Entry>)
    ensures AllSpaced(SpaceAll(hs))
  {
  }

  lemma TocSpaced(toc: seq<TocItem>)
    ensures AllSpaced(TocOutline(toc, false))
  {
  }

  /** Each of the three outline sources ends every text with a space. */
  lemma OutlineOfSpaced(doc: Document)
    ensures OutlineOf(doc).Some? ==> AllSpaced(OutlineOf(doc).value)
  {
    if |doc.toc| > 2 {
      TocSpaced(doc.toc);
    } else if MarkdownHeadingsOf(doc.pages, false) != [] {
      SpaceAllSpaced(MarkdownHeadingsOf(doc.pages, false));
    } else if BoldPassOf(doc.pages).Some? {
      SpaceAllSpaced(BoldOutline(BoldPassOf(doc.pages).value));
    }
  }

  /** Every outline text ends with a space. */
  lemma OutlineTextsSpaced(doc: Document)
    ensures Processed(doc).Some? ==> AllSpaced(Processed(doc).value.outline)
  {
    if doc.name == "file05.pdf" {
      var t := "HOPE TO SEE YOU THERE! ";
      assert t[|t| - 1..] == " ";
    } else if doc.name != "file01.pdf" {
      ProcessedOutline(doc);
      OutlineOfSpaced(doc);
    }
  }

  /** A title found by get_best_title is the title, with one space
      appended. */
  lemma TitleFromBest(doc: Document)
    requires Regular(doc) && OutlineOf(doc).Some?
    requires BestTitle(doc.metadata, doc.pages, false) != []
    ensures Processed(doc).Some?
    ensures Processed(doc).value.title == BestTitle(doc.metadata, doc.pages, false) + " "
  {
    StripOfTrimmed(BestTitle(doc.metadata, doc.pages, false));
  }

  /** Without one, the title is an outline text, stripped, plus one space,
      and it is "" only when the outline is empty. */
  lemma TitleFromOutline(doc: Document)
    requires Regular(doc) && OutlineOf(doc).Some?
    requires BestTitle(doc.metadata, doc.pages, false) == []
    ensures var o := OutlineOf(doc).value;
      (o == [] ==> Processed(doc).value.title == []) &&
      (o != [] ==> exists k :: 0 <= k < |o| && o[k].text != [] && Processed(doc).value.title == Strip(o[k].text) + " ")
  {
    var o := OutlineOf(doc).value;
    if o != [] {
      FallbackFromOutline(o);
      OutlineTextsSpaced(doc);
      var k :| 0 <= k < |o| && FallbackTitle([], o) == o[k].text;
      assert Processed(doc).value.outline[k] == o[k];
    }
  }

  /** process_pdf raises exactly for an ordinary file whose outline comes
      from the bold analysis (no table of contents of more than two
      entries, no markdown heading) and one of whose pages fails the
      structure pass. */
  lemma ProcessedNoneIff(doc: Document)
    ensures Processed(doc).None? <==>
      Regular(doc) && |doc.toc| <= 2 && MarkdownHeadingsOf(doc.pages, false) == [] &&
      exists i :: 0 <= i < |doc.pages| && StructureHeadings(doc.pages[i].lines, i).None?
  {
    BoldPassNoneIff(doc.pages);
  }

  /** process_pdf fails only when some page has a zero average font size. */
  lemma NoFailureWithNonZeroAverages(doc: Document)
    requires NonZeroAverages(doc.pages)
    ensures Processed(doc).Some?
  {
    OutlineNonZero(doc);
  }

  lemma OutlineNonZero(doc: Document)
    requires NonZeroAverages(doc.pages)
    ensures OutlineOf(doc).Some?
  {
    BoldPassNonZero(doc.pages);
  }
}
