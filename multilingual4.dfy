// 1A/main4.py: the multilingual classifier with document statistics, a
// form-field filter, an additive heading score and a cap of 10 spans per
// style group.

module Multilingual4 {
  import opened Common
  import opened Text
  import opened Stats
  import opened Noise
  import opened Scripts
  import opened FontGroups
  import opened Patterns

  // ---------------------------------------------------------------------
  // detect_language_script

  /** The ladder of code-point ranges: only four of the 25 counters are
      ever incremented. */
  function Ladder(c: char): (r: Option<Script>)
    ensures r.Some? ==> r.value in CoreScripts
  {
    var n := c as int;
    if (0x20 <= n <= 0x7F) || (0xA0 <= n <= 0x17F) || (0x100 <= n <= 0x24F) || (0x1E00 <= n <= 0x1EFF) then Some(Latin)
    else if (0x4E00 <= n <= 0x9FFF) || (0x3040 <= n <= 0x309F) || (0x30A0 <= n <= 0x30FF) || (0xAC00 <= n <= 0xD7AF) then Some(Cjk)
    else if (0x600 <= n <= 0x6FF) || (0x750 <= n <= 0x77F) || (0x8A0 <= n <= 0x8FF) then Some(Arabic)
    else if 0x400 <= n <= 0x4FF then Some(Cyrillic)
    else None
  }

  function ScriptOf(text: string): Script {
    Detect(text, Ladder, AllScripts)
  }

  /** Only latin, cjk, arabic or cyrillic can come out, and a text without
      any counted character gives latin, the first key. */
  lemma ScriptOfIsCore(text: string)
    ensures ScriptOf(text) in CoreScripts
    ensures (forall i :: 0 <= i < |text| ==> Ladder(text[i]).None?) ==> ScriptOf(text) == Latin
  {
    DetectCounted(text, Ladder, AllScripts);
  }

  method DetectLanguageScript4(text: string) returns (script: Script)
    ensures script == ScriptOf(text)
  {
    script := DetectLanguageScript(text, Ladder, AllScripts);
  }

  // ---------------------------------------------------------------------
  // is_form_field

  /** `^<word>$` with IGNORECASE, for a word written in lower case. */
  predicate IsWord(t: string, w: string) {
    StartsWith(Lower(t), w) && Dollar(t, |w|)
  }

  /** `^[A-Z]{2,4}$` with IGNORECASE: two to four letters of either case. */
  predicate ShortAcronym(t: string) {
    var n := Min(RunFrom(t, 0, IsLetter), 4);
    n >= 2 && Dollar(t, n)
  }

  /** is_form_field: the stripped text is a bare item number, a short
      acronym or one of the listed label words, in any letter case. */
  predicate IsFormField(text: string) {
    var t := Strip(text);
    t != [] &&
    (NumberDotOnly(t) || ShortAcronym(t) || IsWord(t, "rs.") || IsWord(t, "s.no")
     || IsWord(t, "date") || IsWord(t, "name") || IsWord(t, "age") || IsWord(t, "relationship")
     || IsWord(t, "designation") || IsWord(t, "service") || IsWord(t, "single"))
  }

  /** Every word of two to four ASCII letters is a form field, whatever its
      letter case ("PAY", "the", "Data"). */
  lemma ShortWordIsFormField(w: string)
    requires 2 <= |w| <= 4 && forall i :: 0 <= i < |w| ==> IsLetter(w[i])
    ensures IsFormField(w)
  {
    LettersAreTrimmed(w);
    StripOfTrimmed(w);
    RunFromExact(w, 0, |w|, IsLetter);
    assert ShortAcronym(Strip(w));
  }

  lemma LettersAreTrimmed(w: string)
    requires w != [] && IsLetter(w[0]) && IsLetter(w[|w| - 1])
    ensures Trimmed(w)
  {
  }

  // ---------------------------------------------------------------------
  // is_meaningful_heading

  /** The letter class of is_meaningful_heading: ASCII letters, Latin-1 and
      Latin Extended, Cyrillic, Greek, CJK ideographs, kana and Arabic. */
  predicate MeaningfulLetter(c: char) {
    var n := c as int;
    IsLetter(c) || (0xC0 <= n <= 0x17F) || (0x100 <= n <= 0x24F) || (0x400 <= n <= 0x4FF)
    || (0x370 <= n <= 0x3FF) || (0x4E00 <= n <= 0x9FFF) || (0x3040 <= n <= 0x309F)
    || (0x30A0 <= n <= 0x30FF) || (0x600 <= n <= 0x6FF)
  }

  function LetterCount(t: string): (n: nat)
    ensures n <= |t|
    ensures n > 0 <==> exists i :: 0 <= i < |t| && MeaningfulLetter(t[i])
  {
    if t == [] then 0
    else
      var rest := LetterCount(t[1..]);
      assert forall i :: 1 <= i < |t| ==> t[i] == t[1..][i - 1];
      (if MeaningfulLetter(t[0]) then 1 else 0) + rest
  }

  predicate IsSeparatorChar(c: char) { c == '-' || c == '=' || c == '_' }

  /** `^[-=_]+$` */
  predicate SeparatorsOnly(t: string) {
    var n := RunFrom(t, 0, IsSeparatorChar);
    n > 0 && Dollar(t, n)
  }

  /** `^\d+\s*-\s*\d+$` */
  predicate PageRange(t: string) {
    var d1 := RunFrom(t, 0, IsDigit);
    var i := d1 + RunFrom(t, d1, IsSpace);
    d1 > 0 && DashThenNumber(t, i)
  }

  /** `-\s*\d+$` at position i. */
  predicate DashThenNumber(t: string, i: nat) {
    i < |t| && t[i] == '-' && DigitsToEnd(t, i + 1 + RunFrom(t, i + 1, IsSpace))
  }

  /** is_meaningful_heading: 3 to 200 characters after strip(), at least
      one letter, letters making up at least 30 % of the text, and neither
      a separator line nor a page range. */
  predicate IsMeaningfulHeading(text: string) {
    var t := Strip(text);
    t != [] && 3 <= |t| <= 200 && LetterCount(t) > 0 && 10 * LetterCount(t) >= 3 * |t|
    && !SeparatorsOnly(t) && !PageRange(t)
  }

  /** The separator and page-range checks never reject anything: a text
      that reaches them holds a letter, and neither pattern admits one. */
  lemma LetterExcludesSeparatorsAndRanges(t: string)
    requires LetterCount(t) > 0
    ensures !SeparatorsOnly(t) && !PageRange(t)
  {
    var k :| 0 <= k < |t| && MeaningfulLetter(t[k]);
    LetterIsNotPunctuation(t[k]);
    LetterNotSeparators(t, k);
    LetterNotPageRange(t, k);
  }

  lemma LetterNotSeparators(t: string, k: nat)
    requires k < |t| && !IsSeparatorChar(t[k]) && t[k] != '\n'
    ensures !SeparatorsOnly(t)
  {
    var n := RunFrom(t, 0, IsSeparatorChar);
    assert n <= k;
  }

  lemma LetterNotPageRange(t: string, k: nat)
    requires k < |t| && !IsDigit(t[k]) && !IsSpace(t[k]) && t[k] != '-'
    ensures !PageRange(t)
  {
    if PageRange(t) {
      PageRangeChars(t, k);
      assert false;
    }
  }

  /** A page range holds only digits, white space and the dash. */
  lemma PageRangeChars(t: string, k: nat)
    requires PageRange(t) && k < |t|
    ensures IsDigit(t[k]) || IsSpace(t[k]) || t[k] == '-'
  {
    var d1 := RunFrom(t, 0, IsDigit);
    var i := d1 + RunFrom(t, d1, IsSpace);
    assert DashThenNumber(t, i);
    if k < d1 {
      InRun(t, 0, k, IsDigit);
    } else if k < i {
      InRun(t, d1, k, IsSpace);
    } else {
      DashThenNumberChars(t, i, k);
    }
  }

  lemma DashThenNumberChars(t: string, i: nat, k: nat)
    requires DashThenNumber(t, i) && i <= k < |t|
    ensures IsDigit(t[k]) || IsSpace(t[k]) || t[k] == '-'
  {
    if k > i {
      SpacedDigitsChars(t, i + 1, k);
    }
  }

  /** `\s*\d+$` from `s` on holds only white space and digits. */
  lemma SpacedDigitsChars(t: string, s: nat, k: nat)
    requires s <= k < |t| && DigitsToEnd(t, s + RunFrom(t, s, IsSpace))
    ensures IsDigit(t[k]) || IsSpace(t[k])
  {
    var j := s + RunFrom(t, s, IsSpace);
    var d2 := RunFrom(t, j, IsDigit);
    if k < j {
      InRun(t, s, k, IsSpace);
    } else if k < j + d2 {
      InRun(t, j, k, IsDigit);
    } else {
      DollarAfter(t, j + d2, k);
    }
  }

  /** Past the end of a `$` match there is only the final newline. */
  lemma DollarAfter(t: string, e: nat, k: nat)
    requires Dollar(t, e) && e <= k < |t|
    ensures t[k] == '\n' && IsSpace(t[k])
  {
  }

  lemma LetterIsNotPunctuation(c: char)
    requires MeaningfulLetter(c)
    ensures !IsDigit(c) && !IsSpace(c) && !IsSeparatorChar(c) && c != '-'
  {
  }

  // ---------------------------------------------------------------------
  // calculate_document_stats

  /** avg_font_size and most_common_font_size, in hundredths of a point. */
  datatype DocStats = DocStats(avg: real, common: int)

  /** The sizes of the spans whose text is not blank, in order. */
  function NonBlankSizes(spans: seq<Span>): (sizes: seq<int>)
    ensures |sizes| <= |spans|
  {
    if spans == [] then []
    else
      NonBlankSizes(spans[..|spans| - 1]) + (if Strip(spans[|spans| - 1].text) != [] then [spans[|spans| - 1].size] else [])
  }

  /** 12 pt for both values when no text is present; otherwise the mean
      lies between the smallest and largest size and the most common size
      is one of the sizes. */
  function DocumentStats(spans: seq<Span>): (st: DocStats)
    ensures NonBlankSizes(spans) == [] ==> st == DocStats(1200.0, 1200)
    ensures NonBlankSizes(spans) != [] ==>
      MinOf(NonBlankSizes(spans)) as real <= st.avg <= MaxOf(NonBlankSizes(spans)) as real &&
      st.common in NonBlankSizes(spans) &&
      forall x :: Count(NonBlankSizes(spans), x) <= Count(NonBlankSizes(spans), st.common)
  {
    var sizes := NonBlankSizes(spans);
    if sizes == [] then DocStats(1200.0, 1200)
    else
      MeanBetween(sizes);
      ModeProperties(sizes);
      DocStats(Mean(sizes), Mode(sizes))
  }

  // ---------------------------------------------------------------------
  // has_heading_characteristics

  /** `^\d+\.\s+\w+` */
  predicate NumberedWord(t: string) {
    var d := RunFrom(t, 0, IsDigit);
    d > 0 && d < |t| && t[d] == '.' &&
    var w := RunFrom(t, d + 1, IsSpace);
    w > 0 && d + 1 + w < |t| && IsWordChar(t[d + 1 + w])
  }

  /** `^\w+\s*:?\s*$`: one word, then an optional colon between spaces. */
  predicate SingleWordLabel(t: string) {
    var n := RunFrom(t, 0, IsWordChar);
    var j := n + RunFrom(t, n, IsSpace);
    var k := if j < |t| && t[j] == ':' then j + 1 else j;
    n > 0 && Dollar(t, k + RunFrom(t, k, IsSpace))
  }

  /** `^\d+\.\s*[CJK]+` */
  predicate NumberedCjk(t: string) {
    var d := RunFrom(t, 0, IsDigit);
    d > 0 && d < |t| && t[d] == '.' &&
    var w := RunFrom(t, d + 1, IsSpace);
    d + 1 + w < |t| && IsCjkLetter(t[d + 1 + w])
  }

  /** The heading patterns tried for each script; other scripts get none. */
  function PatternsFor(script: Script): seq<string -> bool> {
    if script == Latin || script == Cyrillic || script == Greek then
      [NumberedWord, ChapterNumber, SectionNumber, SingleWordLabel]
    else if script == Cjk then [NumberedCjk, CjkChapter, CjkSection]
    else if script == Arabic then [NumberedArabic, ArabicChapter]
    else []
  }

  /** Font-size points: +2 above avg+2, +1 above avg. */
  function SizeScore(size: int, avg: real): nat {
    if size as real > avg + 200.0 then 2 else if size as real > avg then 1 else 0
  }

  /** +1 for a multi-word title-case or upper-case text in a Latin-like
      script. */
  function CaseScore(text: string, script: Script): nat {
    if CasedWords(text, script) then 1 else 0
  }

  predicate CasedWords(text: string, script: Script) {
    (script == Latin || script == Cyrillic || script == Greek) && WordCount(text) > 1
    && (IsTitleStr(text) || IsUpperStr(text))
  }

  /** heading_score. Every term is non-negative, so a bold span or one
      larger than avg+2 always reaches the threshold of 2. */
  function Score(span: Span, st: DocStats): (score: nat)
    ensures BoldFlag(span.flags) ==> score >= 2
    ensures span.size as real > st.avg + 200.0 ==> score >= 2
    ensures AnyMatch(PatternsFor(ScriptOf(span.text)), span.text) ==> score >= 2
    ensures score <= 8
  {
    ScoreIn(span, st, ScriptOf(span.text))
  }

  /** The score once the script of the text is known. */
  function ScoreIn(span: Span, st: DocStats, script: Script): (score: nat)
    ensures BoldFlag(span.flags) ==> score >= 2
    ensures span.size as real > st.avg + 200.0 ==> score >= 2
    ensures AnyMatch(PatternsFor(script), span.text) ==> score >= 2
    ensures score <= 8
  {
    SizeScore(span.size, st.avg) + (if BoldFlag(span.flags) then 2 else 0)
    + (if ItalicFlag(span.flags) && span.size as real > st.avg then 1 else 0)
    + CaseScore(span.text, script)
    + (if AnyMatch(PatternsFor(script), span.text) then 2 else 0)
  }

  predicate HeadingCharacteristics(span: Span, st: DocStats) {
    IsMeaningfulHeading(span.text) && !IsFormField(span.text) && Score(span, st) >= 2
  }

  /** has_heading_characteristics: the filters first, then the score. */
  method HasHeadingCharacteristics(span: Span, st: DocStats) returns (accepted: bool)
    ensures accepted == HeadingCharacteristics(span, st)
  {
    var text := span.text;
    if !IsMeaningfulHeading(text) {
      return false;
    }
    if IsFormField(text) {
      return false;
    }
    var script := DetectLanguageScript4(text);
    var score := HeadingScore(span, st, script);
    accepted := score >= 2;
  }

  /** The score accumulated term by term; the first matching pattern
      adds 2. */
  method HeadingScore(span: Span, st: DocStats, script: Script) returns (score: nat)
    ensures score == ScoreIn(span, st, script)
  {
    var text := span.text;
    score := FontPoints(span, st);
    if CasedWords(text, script) {
      score := score + 1;
    }
    var bonus := PatternPoints(text, script);
    score := score + bonus;
  }

  /** The first matching pattern of the script adds 2. */
  method PatternPoints(text: string, script: Script) returns (points: nat)
    ensures points == if AnyMatch(PatternsFor(script), text) then 2 else 0
  {
    points := 0;
    var matched := MatchAny(PatternsFor(script), text);
    if matched {
      points := 2;
    }
  }

  /** The points for size, boldness and italics. */
  method FontPoints(span: Span, st: DocStats) returns (points: nat)
    ensures points == SizeScore(span.size, st.avg) + (if BoldFlag(span.flags) then 2 else 0)
      + (if ItalicFlag(span.flags) && span.size as real > st.avg then 1 else 0)
  {
    points := 0;
    if span.size as real > st.avg + 200.0 {
      points := points + 2;
    } else if span.size as real > st.avg {
      points := points + 1;
    }
    if BoldFlag(span.flags) {
      points := points + 2;
    }
    if ItalicFlag(span.flags) && span.size as real > st.avg {
      points := points + 1;
    }
  }

  // ---------------------------------------------------------------------
  // classify_headings_multilingual

  /** The five tests of the first filtering pass. */
  predicate IsCandidate(span: Span, st: DocStats) {
    !IsPageNumber(span.text) && !IsFooterHeader(span.text) && !IsFormField(span.text)
    && IsMeaningfulHeading(span.text) && HeadingCharacteristics(span, st)
  }

  /** Bold, larger than avg+1, or numbered: what survives the stricter pass. */
  predicate IsStrong(span: Span, st: DocStats) {
    BoldFlag(span.flags) || span.size as real > st.avg + 100.0 || NumberDot(span.text)
  }

  function Candidates(spans: seq<Span>, st: DocStats): seq<Span> {
    Filter(spans, s => IsCandidate(s, st))
  }

  /** More than 20 candidates: keep the first 15 strong ones. */
  function Narrowed(candidates: seq<Span>, st: DocStats): seq<Span> {
    if |candidates| > 20 then Take(Filter(candidates, s => IsStrong(s, st)), 15) else candidates
  }

  function Classified(spans: seq<Span>): seq<Entry> {
    var st := DocumentStats(spans);
    AssignedLevels(GroupsOf(Narrowed(Candidates(spans, st), st)), Some(10))
  }

  /** The first filtering pass of classify_headings_multilingual. */
  method FilterCandidates(spans: seq<Span>, st: DocStats) returns (potential: seq<Span>)
    ensures potential == Candidates(spans, st)
  {
    var candidate := s => IsCandidate(s, st);
    potential := [];
    for n := 0 to |spans|
      invariant potential == Filter(spans[..n], candidate)
    {
      FilterSnoc(spans, n, candidate);
      var span := spans[n];
      var text := span.text;
      var keep := false;
      if !IsPageNumber(text) && !IsFooterHeader(text) && !IsFormField(text) && IsMeaningfulHeading(text) {
        keep := HasHeadingCharacteristics(span, st);
      }
      assert keep == candidate(span);
      if keep {
        potential := potential + [span];
      }
    }
    assert spans[..|spans|] == spans;
  }

  /** The stricter pass, applied when more than 20 spans qualified. */
  method NarrowCandidates(potential: seq<Span>, st: DocStats) returns (narrowed: seq<Span>)
    ensures narrowed == Narrowed(potential, st)
  {
    if |potential| <= 20 {
      return potential;
    }
    var strong := s => IsStrong(s, st);
    var filtered: seq<Span> := [];
    for n := 0 to |potential|
      invariant filtered == Filter(potential[..n], strong)
    {
      FilterSnoc(potential, n, strong);
      var h := potential[n];
      var keep := BoldFlag(h.flags) || h.size as real > st.avg + 100.0 || NumberDot(h.text);
      assert keep == strong(h);
      if keep {
        filtered := filtered + [h];
      }
    }
    assert potential[..|potential|] == potential;
    narrowed := Take(filtered, 15);
  }

  /** classify_headings_multilingual: statistics, the two filtering passes,
      grouping, and level assignment with at most 10 spans per group. */
  method ClassifyHeadings(spans: seq<Span>) returns (headings: seq<Entry>)
    ensures headings == Classified(spans)
  {
    var st := DocumentStats(spans);
    var potential := FilterCandidates(spans, st);
    potential := NarrowCandidates(potential, st);
    var groups := GroupByFontProperties(potential);
    headings := AssignHeadingLevels(groups, Some(10));
  }

  /** Grouping never sees more than 20 spans; after the stricter pass at
      most 15, all of them strong, taken in input order. */
  lemma NarrowedBounds(candidates: seq<Span>, st: DocStats)
    ensures |Narrowed(candidates, st)| <= 20
    ensures |candidates| > 20 ==> (
      var r := Narrowed(candidates, st);
      |r| <= 15 && r == Filter(candidates, s => IsStrong(s, st))[..|r|] &&
      forall i :: 0 <= i < |r| ==> IsStrong(r[i], st) && r[i] in candidates)
  {
  }

  /** Every span that reaches grouping passed all five filters. */
  lemma NarrowedAreCandidates(spans: seq<Span>, st: DocStats)
    ensures var r := Narrowed(Candidates(spans, st), st);
      forall i :: 0 <= i < |r| ==> (r[i] in spans && IsCandidate(r[i], st) &&
        IsMeaningfulHeading(r[i].text) && !IsFormField(r[i].text) && !IsPageNumber(r[i].text))
  {
    var c := Candidates(spans, st);
    var r := Narrowed(c, st);
    forall i | 0 <= i < |r| ensures r[i] in c {
      if |c| > 20 {
        var f := Filter(c, s => IsStrong(s, st));
        assert r[i] == f[i];
      }
    }
  }

  /** The outline has at most 30 entries, levels H1 to H3, pages in order. */
  lemma ClassifiedShape(spans: seq<Span>)
    ensures var out := Classified(spans);
      |out| <= 30 && LevelsWithin(out, 1, 3) && PagesNonDecreasing(out)
  {
    var st := DocumentStats(spans);
    var groups := GroupsOf(Narrowed(Candidates(spans, st), st));
    AssignedLevelsAtMostThirty(groups);
    AssignedLevelsShape(groups, Some(10));
  }

  // ---------------------------------------------------------------------
  // MultilingualPDFParser.extract_title

  predicate IsDocumentFileName(t: string) {
    EndsWith(t, ".doc") || EndsWith(t, ".pdf") || EndsWith(t, ".docx")
  }

  /** The stripped metadata title unless it looks like a file name; else
      the first H1 longer than 10 characters; else the first heading if
      longer than 5; else "Document". Never empty, and always one of
      those candidates. */
  function ExtractTitle(metadata: Option<string>, headings: seq<Entry>): (title: string)
    ensures title != []
    ensures (metadata.Some? && title == Strip(metadata.value)) || title == "Document" ||
            exists i :: 0 <= i < |headings| && title == headings[i].text
  {
    if metadata.Some? && Strip(metadata.value) != [] && !IsDocumentFileName(Strip(metadata.value)) then
      Strip(metadata.value)
    else
      match FirstWhere(headings, (h: Entry) => h.level == 1 && |h.text| > 10)
      case Some(i) => headings[i].text
      case None =>
        if headings != [] && |headings[0].text| > 5 then headings[0].text else "Document"
  }

  /** An H1 longer than 10 characters wins over any later heading when
      the metadata gives no usable title. */
  lemma TitlePrefersFirstLongH1(metadata: Option<string>, headings: seq<Entry>, k: nat)
    requires metadata.None? || Strip(metadata.value) == []
    requires k < |headings| && headings[k].level == 1 && |headings[k].text| > 10
    requires forall j :: 0 <= j < k ==> !(headings[j].level == 1 && |headings[j].text| > 10)
    ensures ExtractTitle(metadata, headings) == headings[k].text
  {
    var f := FirstWhere(headings, (h: Entry) => h.level == 1 && |h.text| > 10);
    assert f == Some(k);
  }
}
