// 1A/main7.py: SmartPDFOutlineExtractor. Lines of text are scored by
// content, font and position after form fields and address lines are
// excluded; levels come from section numbering, keywords or size; the
// outline is sorted by page, de-duplicated and capped at fifteen entries
// per level.
//
// Every pattern of this variant is matched with re.IGNORECASE, so `[A-Z]`
// and `[a-z]` stand for any ASCII letter and literal words are compared
// after lower-casing.

module SmartOutline {
  import opened Common
  import opened Text
  import opened Patterns
  import opened Stats
  import opened Sorting
  import Noise

  const MinHeadingLength: nat := 5
  const MaxHeadingLength: nat := 150
  const MaxHeadingsPerLevel: nat := 15

  /** One line of text as extract_text_elements reports it: the cleaned
      text, its largest character size and its lower edge (both in
      hundredths of a point), whether the line's dominant font name
      contains "bold", and the 1-based page. */
  datatype Element = Element(text: string, size: int, bold: bool, page: int, y: int)

  // ---------------------------------------------------------------------
  // clean_text

  /** NFKC (taken as the identity), strip() and `\s+` -> ' ', then every
      run of three or more dots becomes "...". */
  function CleanText(text: string): (r: string)
    ensures Collapsed(r) && NoFourDots(r)
  {
    var c := CollapseWhitespace(text);
    CollapseDotsKeepsCollapsed(c);
    CollapseDots(c)
  }

  lemma CollapseDotsKeepsCollapsed(c: string)
    requires Collapsed(c)
    ensures Collapsed(CollapseDots(c)) && NoFourDots(CollapseDots(c))
  {
    CollapseDotsShape(c);
    if c != [] {
      CollapseDotsEnds(c);
    }
  }

  /** Cleaning a cleaned text changes nothing. */
  lemma CleanTextIdempotent(text: string)
    ensures CleanText(CleanText(text)) == CleanText(text)
  {
    var r := CleanText(text);
    CollapsedFixpoint(r);
    CollapseDotsFixpoint(r);
  }

  // ---------------------------------------------------------------------
  // Form-field patterns

  /** `^[A-Z]{1,4}$` */
  predicate ShortLetters(t: string) {
    var n := RunFrom(t, 0, IsLetter);
    1 <= n <= 4 && Dollar(t, n)
  }

  const FieldLabels: seq<string> := ["name", "date", "age", "signature", "rs.", "s.no", "relationship", "designation"]

  /** `^(Name|Date|Age|Signature|Rs\.|S\.No|Relationship|Designation)$` */
  predicate FieldLabel(t: string) {
    exists i :: 0 <= i < |FieldLabels| && StartsWith(Lower(t), FieldLabels[i]) && Dollar(t, |FieldLabels[i]|)
  }

  /** `^\w+:\s*$` */
  predicate ColonLabel(t: string) {
    var n := RunFrom(t, 0, IsWordChar);
    n > 0 && n < |t| && t[n] == ':' && Dollar(t, n + 1 + RunFrom(t, n + 1, IsSpace))
  }

  predicate IsRuleChar(c: char) { c == '-' || c == '_' || c == '=' }

  /** `^[-_=]{2,}$` */
  predicate RuleLine(t: string) {
    var n := RunFrom(t, 0, IsRuleChar);
    n >= 2 && Dollar(t, n)
  }

  /** `^\d{1,2}/\d{1,2}/\d{2,4}$` */
  predicate DateLine(t: string) {
    var a := RunFrom(t, 0, IsDigit);
    1 <= a <= 2 && a < |t| && t[a] == '/' &&
    var b := RunFrom(t, a + 1, IsDigit);
    1 <= b <= 2 && a + 1 + b < |t| && t[a + 1 + b] == '/' &&
    var c := RunFrom(t, a + b + 2, IsDigit);
    2 <= c <= 4 && Dollar(t, a + b + 2 + c)
  }

  /** `^Page\s+\d+$` */
  predicate PageLine(t: string) { Noise.PageWordNumber(Lower(t)) }

  /** `^\w+@\w+\.\w+$` */
  predicate EmailLine(t: string) {
    var a := RunFrom(t, 0, IsWordChar);
    a > 0 && a < |t| && t[a] == '@' &&
    var b := RunFrom(t, a + 1, IsWordChar);
    b > 0 && a + 1 + b < |t| && t[a + 1 + b] == '.' &&
    var c := RunFrom(t, a + b + 2, IsWordChar);
    c > 0 && Dollar(t, a + b + 2 + c)
  }

  /** `^www\.\w+` */
  predicate WebAddress(t: string) {
    StartsWith(Lower(t), "www.") && |t| > 4 && IsWordChar(t[4])
  }

  /** `^https?://` */
  predicate UrlLine(t: string) {
    StartsWith(Lower(t), "http://") || StartsWith(Lower(t), "https://")
  }

  /** Exactly `\d{n}` at position i. */
  predicate DigitsAt(t: string, i: nat, n: nat) {
    i + n <= |t| && forall k :: i <= k < i + n ==> IsDigit(t[k])
  }

  /** `^\(\d{3}\)\s*\d{3}-\d{4}$` */
  predicate PhoneLine(t: string) {
    |t| >= 5 && t[0] == '(' && DigitsAt(t, 1, 3) && t[4] == ')' &&
    var w := RunFrom(t, 5, IsSpace);
    DigitsAt(t, 5 + w, 3) && 8 + w < |t| && t[8 + w] == '-' && DigitsAt(t, 9 + w, 4) && Dollar(t, 13 + w)
  }

  /** `^\d{5}(-\d{4})?$` */
  predicate ZipLine(t: string) {
    DigitsAt(t, 0, 5) && (Dollar(t, 5) || (5 < |t| && t[5] == '-' && DigitsAt(t, 6, 4) && Dollar(t, 10)))
  }

  const FormFieldPatterns: seq<string -> bool> := [
    NumberDotOnly, ShortLetters, FieldLabel, ColonLabel, RuleLine, DateLine,
    PageLine, EmailLine, WebAddress, UrlLine, PhoneLine, ZipLine]

  // ---------------------------------------------------------------------
  // Address and contact patterns

  /** `^\d+\s+[A-Z\s]+$`, meant for "3735 PARKWAY". */
  predicate StreetLine(t: string) {
    var d := RunFrom(t, 0, IsDigit);
    d > 0 && d < |t| && IsSpace(t[d]) &&
    var r := RunFrom(t, d + 1, IsLetterOrSpace);
    r > 0 && d + 1 + r == |t|
  }

  /** `^[A-Z\s]+,\s*[A-Z]{2}\s+\d{5}`, meant for "CITY, ST 12345". */
  predicate CityLine(t: string) {
    var n := RunFrom(t, 0, IsLetterOrSpace);
    n > 0 && n < |t| && t[n] == ',' &&
    var k := n + 1 + RunFrom(t, n + 1, IsSpace);
    k + 2 <= |t| && IsLetter(t[k]) && IsLetter(t[k + 1]) &&
    var w := RunFrom(t, k + 2, IsSpace);
    w > 0 && DigitsAt(t, k + 2 + w, 5)
  }

  /** `^\([A-Z\s]+\)$`, meant for "(NEAR SOMETHING)". */
  predicate ParenthesisedLine(t: string) {
    |t| > 0 && t[0] == '(' &&
    var n := RunFrom(t, 1, IsLetterOrSpace);
    n > 0 && 1 + n < |t| && t[1 + n] == ')' && Dollar(t, 2 + n)
  }

  const AddressPatterns: seq<string -> bool> := [StreetLine, CityLine, ParenthesisedLine]

  // ---------------------------------------------------------------------
  // Heading patterns

  /** `^\d+\.\s+[A-Z].*`: "1. Introduction" */
  predicate NumberedTitle(t: string) {
    var d := RunFrom(t, 0, IsDigit);
    d > 0 && d < |t| && t[d] == '.' &&
    var w := RunFrom(t, d + 1, IsSpace);
    w > 0 && d + 1 + w < |t| && IsLetter(t[d + 1 + w])
  }

  /** `^Chapter\s+\d+` */
  predicate ChapterLine(t: string) { KeywordNumber(Lower(t), "chapter") }

  /** `^Section\s+\d+` */
  predicate SectionLine(t: string) { KeywordNumber(Lower(t), "section") }

  /** `^[A-Z][a-z]+(\s+[A-Z][a-z]*)*\s*:?\s*$`: with the letter case
      ignored, letters and whitespace starting with two letters, then at
      most a colon followed by whitespace. */
  predicate TitleWords(t: string) {
    var n := RunFrom(t, 0, IsLetterOrSpace);
    |t| >= 2 && IsLetter(t[0]) && IsLetter(t[1]) &&
    (n == |t| || (t[n] == ':' && AllSpaces(t[n + 1..])))
  }

  /** `[A-Z\s]+[A-Z]` fills t[..e] exactly. */
  predicate LettersEndingAt(t: string, e: nat) {
    2 <= e <= |t| && RunFrom(t, 0, IsLetterOrSpace) >= e && IsLetter(t[e - 1])
  }

  /** `^[A-Z\s]+[A-Z]$`: letters and whitespace ending in a letter. */
  predicate CapsLine(t: string) {
    LettersEndingAt(t, |t|) || (|t| > 0 && t[|t| - 1] == '\n' && LettersEndingAt(t, |t| - 1))
  }

  /** `^\d+\.\d+\s+`: "1.1 Something" */
  predicate SubsectionNumber(t: string) {
    var a := RunFrom(t, 0, IsDigit);
    a > 0 && a < |t| && t[a] == '.' &&
    var b := RunFrom(t, a + 1, IsDigit);
    b > 0 && a + 1 + b < |t| && IsSpace(t[a + 1 + b])
  }

  const SectionWords: seq<string> := ["overview", "introduction", "conclusion", "references", "acknowledgements", "abstract", "summary"]

  /** `^Overview\s*$`, `^Introduction\s*$`, ... `^Summary\s*$` */
  predicate SectionWord(t: string) {
    exists i :: 0 <= i < |SectionWords| && StartsWith(Lower(t), SectionWords[i]) && AllSpaces(t[|SectionWords[i]|..])
  }

  /** `Application\s+form`, tried by re.match and so only at the start. */
  predicate ApplicationForm(t: string) {
    var l := Lower(t);
    StartsWith(l, "application") &&
    var w := RunFrom(l, 11, IsSpace);
    w > 0 && StartsAt(l, 11 + w, "form")
  }

  const HeadingPatterns: seq<string -> bool> := [
    NumberedTitle, ChapterLine, SectionLine, TitleWords, CapsLine,
    SubsectionNumber, SectionWord, ApplicationForm]

  /** `^\d+$` */
  predicate DigitsOnly(t: string) { Noise.DigitsToEnd(t, 0) }

  /** The text starts with a non-digit, or its leading digits are
      followed by a dot. */
  predicate NotBareStart(t: string) {
    var d := RunFrom(t, 0, IsDigit);
    d < |t| && (d == 0 || t[d] == '.')
  }

  /** A text whose lower-cased form starts with a letter does not start
      with a digit. */
  lemma LowerLetterStart(t: string)
    requires |t| > 0 && IsLower(Lower(t)[0])
    ensures NotBareStart(t)
  {
    assert RunFrom(t, 0, IsDigit) == 0;
  }

  lemma KeywordStart(t: string, keyword: string)
    requires keyword != [] && IsLower(keyword[0]) && StartsWith(Lower(t), keyword)
    ensures NotBareStart(t)
  {
    assert Lower(t)[0] == keyword[0];
    LowerLetterStart(t);
  }

  lemma SectionWordStart(t: string)
    requires SectionWord(t)
    ensures NotBareStart(t)
  {
    var j :| 0 <= j < |SectionWords| && StartsWith(Lower(t), SectionWords[j]) && AllSpaces(t[|SectionWords[j]|..]);
    KeywordStart(t, SectionWords[j]);
  }

  lemma LetterOrSpaceStart(t: string)
    requires |t| > 0 && IsLetterOrSpace(t[0])
    ensures NotBareStart(t)
  {
    assert RunFrom(t, 0, IsDigit) == 0;
  }

  lemma NotBareIsNotDigitsOnly(t: string)
    requires NotBareStart(t)
    ensures !DigitsOnly(t)
  {
  }

  /** No heading pattern matches a bare number: each of them needs a dot
      after the leading digits or starts with a letter or a space. */
  lemma PatternsAreNotBareNumbers(t: string)
    requires AnyMatch(HeadingPatterns, t)
    ensures !DigitsOnly(t)
  {
    var i :| 0 <= i < |HeadingPatterns| && HeadingPatterns[i](t);
    if i == 1 {
      KeywordStart(t, "chapter");
    } else if i == 2 {
      KeywordStart(t, "section");
    } else if i == 3 || i == 4 {
      LetterOrSpaceStart(t);
    } else if i == 6 {
      SectionWordStart(t);
    } else if i == 7 {
      KeywordStart(t, "application");
    }
    NotBareIsNotDigitsOnly(t);
  }

  // ---------------------------------------------------------------------
  // calculate_document_stats

  /** The base size (the most common size) and the "large" threshold. */
  datatype SizeStats = SizeStats(base: int, large: real)

  function Sizes(elements: seq<Element>): (sizes: seq<int>)
    ensures |sizes| == |elements|
    ensures forall i :: 0 <= i < |elements| ==> sizes[i] == elements[i].size
  {
    seq(|elements|, i requires 0 <= i < |elements| => elements[i].size)
  }

  /** 12 pt and 14 pt without elements; otherwise the most frequent size
      and max(base + 2 pt, mean + 1 pt). */
  function DocumentStats(elements: seq<Element>): (st: SizeStats)
    ensures elements == [] ==> st == SizeStats(1200, 1400.0)
    ensures elements != [] ==>
      var sizes := Sizes(elements);
      st.base in sizes && (forall x :: Count(sizes, x) <= Count(sizes, st.base)) &&
      st.large >= (st.base + 200) as real && st.large >= Mean(sizes) + 100.0 &&
      (st.large == (st.base + 200) as real || st.large == Mean(sizes) + 100.0)
  {
    var sizes := Sizes(elements);
    if sizes == [] then SizeStats(1200, 1400.0)
    else
      ModeProperties(sizes);
      var base := Mode(sizes);
      var avg := Mean(sizes);
      SizeStats(base, if (base + 200) as real >= avg + 100.0 then (base + 200) as real else avg + 100.0)
  }

  // ---------------------------------------------------------------------
  // is_likely_heading

  /** The length filters and the two exclusion lists. */
  predicate Excluded(t: string) {
    |t| < MinHeadingLength || |t| > MaxHeadingLength
    || AnyMatch(FormFieldPatterns, t) || AnyMatch(AddressPatterns, t)
  }

  /** The heading score: +3 for a heading pattern, +2 above the large
      threshold or else +1 above the base size, +2 bold, +1 above 700 pt
      from the page bottom, +1 for a title-cased text of several words, +1
      for upper case up to 50 characters, -2 for a bare number and -1 for
      more than three dots. */
  function Score(e: Element, st: SizeStats): int {
    var t := e.text;
    (if AnyMatch(HeadingPatterns, t) then 3 else 0)
    + (if e.size as real > st.large then 2 else if e.size > st.base then 1 else 0)
    + (if e.bold then 2 else 0)
    + (if e.y > 70000 then 1 else 0)
    + (if IsTitleStr(t) && WordCount(t) > 1 then 1 else 0)
    + (if IsUpperStr(t) && 5 <= |t| <= 50 then 1 else 0)
    - (if DigitsOnly(t) then 2 else 0)
    - (if CountChar(t, '.') > 3 then 1 else 0)
  }

  predicate LikelyHeading(e: Element, st: SizeStats) {
    !Excluded(e.text) && Score(e, st) >= 2
  }

  method IsLikelyHeading(e: Element, st: SizeStats) returns (likely: bool)
    ensures likely == LikelyHeading(e, st)
    ensures likely ==> MinHeadingLength <= |e.text| <= MaxHeadingLength
  {
    var text := e.text;
    if |text| < MinHeadingLength || |text| > MaxHeadingLength {
      return false;
    }
    var form := MatchAny(FormFieldPatterns, text);
    if form {
      return false;
    }
    var address := MatchAny(AddressPatterns, text);
    if address {
      return false;
    }
    var score := 0;
    var pattern := MatchAny(HeadingPatterns, text);
    if pattern {
      score := score + 3;
    }
    if e.size as real > st.large {
      score := score + 2;
    } else if e.size > st.base {
      score := score + 1;
    }
    if e.bold {
      score := score + 2;
    }
    if e.y > 70000 {
      score := score + 1;
    }
    if IsTitleStr(text) && WordCount(text) > 1 {
      score := score + 1;
    }
    if IsUpperStr(text) && 5 <= |text| <= 50 {
      score := score + 1;
    }
    if DigitsOnly(text) {
      score := score - 2;
    }
    if CountChar(text, '.') > 3 {
      score := score - 1;
    }
    likely := score >= 2;
  }

  /** A text that survives the exclusions and matches a heading pattern is
      a heading whatever its font: the bare-number penalty cannot apply
      to it, so at worst the dot penalty takes 3 down to 2. */
  lemma PatternMatchAccepted(e: Element, st: SizeStats)
    requires !Excluded(e.text) && AnyMatch(HeadingPatterns, e.text)
    ensures LikelyHeading(e, st)
  {
    PatternsAreNotBareNumbers(e.text);
  }

  /** Bold text above the large threshold is a heading unless excluded:
      4 points, and the two penalties never both apply. */
  lemma BoldLargeAccepted(e: Element, st: SizeStats)
    requires !Excluded(e.text) && e.bold && e.size as real > st.large
    ensures LikelyHeading(e, st)
  {
    var t := e.text;
    if DigitsOnly(t) {
      var n := RunFrom(t, 0, IsDigit);
      assert forall k :: 0 <= k < |t| ==> t[k] == '\n' || IsDigit(t[k]);
      NoDotsCounted(t);
    }
  }

  lemma {:induction false} NoDotsCounted(t: string)
    requires forall k :: 0 <= k < |t| ==> t[k] != '.'
    ensures CountChar(t, '.') == 0
    decreases |t|
  {
    if t != [] {
      NoDotsCounted(t[1..]);
    }
  }

  /** A label such as "Name:" or "Introduction:" is a form field, so it is
      never a heading even though it matches the title-case pattern. */
  lemma ColonLabelRejected(e: Element, st: SizeStats, w: string)
    requires w != [] && forall i :: 0 <= i < |w| ==> IsWordChar(w[i])
    requires e.text == w + ":"
    ensures !LikelyHeading(e, st)
  {
    var t := e.text;
    RunFromExact(t, 0, |w|, IsWordChar);
    assert ColonLabel(t);
    assert FormFieldPatterns[3](t);
  }

  /** A number, a space and words ("1 Introduction", "2 Background") is
      taken for a street address because the address patterns ignore the
      letter case, so such lines are never headings. */
  lemma NumberedWordsRejected(e: Element, st: SizeStats, n: nat, words: string)
    requires words != [] && forall i :: 0 <= i < |words| ==> IsLetterOrSpace(words[i])
    requires e.text == NatToString(n) + " " + words
    ensures !LikelyHeading(e, st)
  {
    var t := e.text;
    var d := NatToString(n);
    assert t[..|d|] == d;
    RunFromExact(t, 0, |d|, IsDigit);
    RunFromExact(t, |d| + 1, |t|, IsLetterOrSpace);
    assert StreetLine(t);
    assert AddressPatterns[0](t);
  }

  // ---------------------------------------------------------------------
  // determine_heading_level

  /** `^(\d+)\.(\d+)` */
  predicate TwoNumbers(t: string) {
    var a := RunFrom(t, 0, IsDigit);
    NumberDot(t) && a + 1 < |t| && IsDigit(t[a + 1])
  }

  /** `^(\d+)\.(\d+)\.(\d+)`: a number and a dot, then `(\d+)\.(\d+)`. */
  predicate ThreeNumbers(t: string) {
    NumberDot(t) && TwoNumbers(t[RunFrom(t, 0, IsDigit) + 1..])
  }

  /** `^(Chapter|Part)\s+\d+` */
  predicate ChapterOrPart(t: string) {
    KeywordNumber(Lower(t), "chapter") || KeywordNumber(Lower(t), "part")
  }

  /** H1..H3 from the numbering depth, then the keywords, then the size
      against the large threshold (2 pt above it makes an H1). */
  function HeadingLevel(t: string, size: int, st: SizeStats): (level: nat)
    ensures 1 <= level <= 3
  {
    if ThreeNumbers(t) then 3
    else if TwoNumbers(t) then 2
    else if NumberDot(t) then 1
    else if ChapterOrPart(t) then 1
    else if SectionLine(t) then 2
    else if size as real > st.large + 200.0 then 1
    else if size as real > st.large then 2
    else 3
  }

  /** Numbering and the keywords decide the level whatever the size. */
  lemma NumberingDecidesLevel(t: string, s1: int, s2: int, st: SizeStats)
    requires NumberDot(t) || ChapterOrPart(t) || SectionLine(t)
    ensures HeadingLevel(t, s1, st) == HeadingLevel(t, s2, st)
  {
  }

  /** A larger size never gives a deeper level. */
  lemma LevelBySize(t: string, s1: int, s2: int, st: SizeStats)
    requires s1 <= s2
    ensures HeadingLevel(t, s2, st) <= HeadingLevel(t, s1, st)
  {
  }

  /** The digits of `p` followed by a non-digit `c` form the leading
      number of `p + [c] + rest`. */
  lemma LeadingNumber(p: string, c: char, rest: string)
    requires p != [] && AllDigits(p) && !IsDigit(c)
    ensures var t := p + [c] + rest;
      RunFrom(t, 0, IsDigit) == |p| && t[|p|] == c && t[|p| + 1..] == rest
  {
    var t := p + [c] + rest;
    RunFromExact(t, 0, |p|, IsDigit);
  }

  predicate Numeral(d: string) { d != [] && AllDigits(d) }

  /** "a.b.c ..." is an H3. */
  lemma ThreePartNumberLevel(a: string, b: string, c: string, rest: string, size: int, st: SizeStats)
    requires Numeral(a) && Numeral(b) && Numeral(c)
    ensures HeadingLevel(a + "." + b + "." + c + rest, size, st) == 3
  {
    var v := c + rest;
    var u := b + ['.'] + v;
    LeadingNumber(b, '.', v);
    assert TwoNumbers(u);
    assert a + "." + b + "." + c + rest == a + ['.'] + u;
    NumberThenTwo(a, u);
  }

  /** A number and a dot in front of `(\d+)\.(\d+)` give three parts. */
  lemma NumberThenTwo(a: string, u: string)
    requires Numeral(a) && TwoNumbers(u)
    ensures ThreeNumbers(a + ['.'] + u)
  {
    LeadingNumber(a, '.', u);
  }

  /** "a.b" followed by neither a digit nor a dot is an H2. */
  lemma TwoPartNumberLevel(a: string, b: string, rest: string, size: int, st: SizeStats)
    requires Numeral(a) && Numeral(b)
    requires rest == [] || (!IsDigit(rest[0]) && rest[0] != '.')
    ensures HeadingLevel(a + "." + b + rest, size, st) == 2
  {
    var u := b + rest;
    LeadingNumber(a, '.', u);
    assert a + "." + b + rest == a + ['.'] + u;
    RunFromExact(u, 0, |b|, IsDigit);
    assert !NumberDot(u);
  }

  /** "a." followed by a non-digit is an H1. */
  lemma OnePartNumberLevel(a: string, rest: string, size: int, st: SizeStats)
    requires Numeral(a)
    requires rest == [] || !IsDigit(rest[0])
    ensures HeadingLevel(a + "." + rest, size, st) == 1
  {
    LeadingNumber(a, '.', rest);
    assert a + "." + rest == a + ['.'] + rest;
  }

  // ---------------------------------------------------------------------
  // deduplicate_and_limit

  /** A heading candidate before de-duplication. */
  datatype Candidate = Candidate(level: nat, text: string, page: int, size: int)

  function EntryOf(c: Candidate): Entry { Entry(c.level, c.text, c.page) }

  function EntriesOf(cs: seq<Candidate>): (es: seq<Entry>)
    ensures |es| == |cs|
    ensures forall i :: 0 <= i < |cs| ==> es[i] == EntryOf(cs[i])
  {
    seq(|cs|, i requires 0 <= i < |cs| => EntryOf(cs[i]))
  }

  /** Sort key (page, -font_size). */
  function SortKey(c: Candidate): seq<int> { [c.page, -c.size] }

  /** `heading['text'].lower().strip()` */
  function Key(text: string): string { Lower(Strip(text)) }

  /** `level_counts[level]` of a defaultdict(int). */
  function Used(counts: map<nat, nat>, level: nat): nat {
    if level in counts then counts[level] else 0
  }

  /** The loop over the sorted candidates, given the keys already seen and
      the entries already emitted per level. The key function is a
      parameter so that the facts below hold for any key; the source's key
      is `Key`. */
  function Kept(hs: seq<Candidate>, key: string -> string, seen: set<string>, counts: map<nat, nat>): seq<Entry>
    decreases |hs|
  {
    if hs == [] then []
    else
      var h := hs[0];
      if key(h.text) in seen || Used(counts, h.level) >= MaxHeadingsPerLevel then Kept(hs[1..], key, seen, counts)
      else [EntryOf(h)] + Kept(hs[1..], key, seen + {key(h.text)}, counts[h.level := Used(counts, h.level) + 1])
  }

  function Deduplicated(headings: seq<Candidate>): seq<Entry> {
    Kept(SortBy(headings, SortKey), Key, {}, map[])
  }

  method DeduplicateAndLimit(headings: seq<Candidate>) returns (final: seq<Entry>)
    ensures final == Deduplicated(headings)
  {
    var sorted := SortBy(headings, SortKey);
    var seen: set<string> := {};
    var counts: map<nat, nat> := map[];
    final := [];
    for i := 0 to |sorted|
      invariant final + Kept(sorted[i..], Key, seen, counts) == Kept(sorted, Key, {}, map[])
    {
      var h := sorted[i];
      KeptStep(sorted, i, Key, seen, counts);
      var key := Key(h.text);
      if key !in seen && Used(counts, h.level) < MaxHeadingsPerLevel {
        AppendAssoc(final, [EntryOf(h)], Kept(sorted[i + 1..], Key, seen + {key}, counts[h.level := Used(counts, h.level) + 1]));
        seen := seen + {key};
        counts := counts[h.level := Used(counts, h.level) + 1];
        final := final + [EntryOf(h)];
      }
    }
    assert sorted[|sorted|..] == [];
  }

  /** One step of the loop: the candidate at i is kept or skipped. */
  lemma KeptStep(hs: seq<Candidate>, i: nat, key: string -> string, seen: set<string>, counts: map<nat, nat>)
    requires i < |hs|
    ensures var h := hs[i];
      Kept(hs[i..], key, seen, counts) ==
        if key(h.text) in seen || Used(counts, h.level) >= MaxHeadingsPerLevel then Kept(hs[i + 1..], key, seen, counts)
        else [EntryOf(h)] + Kept(hs[i + 1..], key, seen + {key(h.text)}, counts[h.level := Used(counts, h.level) + 1])
  {
    assert hs[i..][0] == hs[i] && hs[i..][1..] == hs[i + 1..];
  }

  function LevelCount(out: seq<Entry>, level: nat): nat {
    if out == [] then 0 else (if out[0].level == level then 1 else 0) + LevelCount(out[1..], level)
  }

  predicate DistinctKeys(out: seq<Entry>, key: string -> string) {
    forall i, j :: 0 <= i < j < |out| ==> key(out[i].text) != key(out[j].text)
  }

  /** No emitted key was seen before, and no two emitted keys are equal. */
  lemma {:induction false} KeptKeys(hs: seq<Candidate>, key: string -> string, seen: set<string>, counts: map<nat, nat>)
    ensures forall e :: e in Kept(hs, key, seen, counts) ==> key(e.text) !in seen
    ensures DistinctKeys(Kept(hs, key, seen, counts), key)
    decreases |hs|
  {
    if hs != [] {
      var h := hs[0];
      if key(h.text) in seen || Used(counts, h.level) >= MaxHeadingsPerLevel {
        KeptKeys(hs[1..], key, seen, counts);
      } else {
        var seen' := seen + {key(h.text)};
        var counts' := counts[h.level := Used(counts, h.level) + 1];
        var rest := Kept(hs[1..], key, seen', counts');
        KeptKeys(hs[1..], key, seen', counts');
        var out := [EntryOf(h)] + rest;
        assert out == Kept(hs, key, seen, counts);
        forall i, j | 0 <= i < j < |out| ensures key(out[i].text) != key(out[j].text) {
          assert out[j] == rest[j - 1];
          if i > 0 {
            assert out[i] == rest[i - 1];
          } else {
            assert rest[j - 1] in rest;
          }
        }
      }
    }
  }

  /** Together with what was emitted before, at most fifteen entries of a
      level are emitted. */
  lemma {:induction false} KeptPerLevel(hs: seq<Candidate>, key: string -> string, seen: set<string>, counts: map<nat, nat>, level: nat)
    requires Used(counts, level) <= MaxHeadingsPerLevel
    ensures LevelCount(Kept(hs, key, seen, counts), level) + Used(counts, level) <= MaxHeadingsPerLevel
    decreases |hs|
  {
    if hs != [] {
      var h := hs[0];
      if key(h.text) in seen || Used(counts, h.level) >= MaxHeadingsPerLevel {
        KeptPerLevel(hs[1..], key, seen, counts, level);
      } else {
        var seen' := seen + {key(h.text)};
        var counts' := counts[h.level := Used(counts, h.level) + 1];
        KeptPerLevel(hs[1..], key, seen', counts', level);
        var out := [EntryOf(h)] + Kept(hs[1..], key, seen', counts');
        assert out[1..] == Kept(hs[1..], key, seen', counts');
      }
    }
  }

  /** The emitted entries are the candidates' entries with some left out,
      in the same order. */
  lemma {:induction false} KeptSubseq(hs: seq<Candidate>, key: string -> string, seen: set<string>, counts: map<nat, nat>)
    ensures SubseqOf(Kept(hs, key, seen, counts), EntriesOf(hs))
    decreases |hs|
  {
    if hs != [] {
      var h := hs[0];
      assert EntriesOf(hs)[1..] == EntriesOf(hs[1..]);
      if key(h.text) in seen || Used(counts, h.level) >= MaxHeadingsPerLevel {
        KeptSubseq(hs[1..], key, seen, counts);
      } else {
        var seen' := seen + {key(h.text)};
        var counts' := counts[h.level := Used(counts, h.level) + 1];
        KeptSubseq(hs[1..], key, seen', counts');
        var out := [EntryOf(h)] + Kept(hs[1..], key, seen', counts');
        assert out[1..] == Kept(hs[1..], key, seen', counts');
      }
    }
  }

  lemma SortedPages(headings: seq<Candidate>)
    ensures PagesNonDecreasing(EntriesOf(SortBy(headings, SortKey)))
  {
    var sorted := SortBy(headings, SortKey);
    SortBySorted(headings, SortKey);
    forall i, j | 0 <= i < j < |sorted| ensures sorted[i].page <= sorted[j].page {
      assert LexLe(SortKey(sorted[i]), SortKey(sorted[j]));
      LexLePair(sorted[i].page, -sorted[i].size, sorted[j].page, -sorted[j].size);
    }
  }

  lemma {:induction false} LevelCountsSum(out: seq<Entry>)
    requires LevelsWithin(out, 1, 3)
    ensures |out| == LevelCount(out, 1) + LevelCount(out, 2) + LevelCount(out, 3)
  {
    if out != [] {
      assert LevelsWithin(out[1..], 1, 3);
      LevelCountsSum(out[1..]);
    }
  }

  /** The final outline keeps one entry per lower-cased, stripped text, at
      most fifteen per level, in page order, as a subsequence of the
      candidates sorted by (page, -size). */
  lemma DeduplicatedProperties(headings: seq<Candidate>)
    ensures var out := Deduplicated(headings);
      DistinctKeys(out, Key) && PagesNonDecreasing(out) &&
      SubseqOf(out, EntriesOf(SortBy(headings, SortKey))) &&
      forall level :: LevelCount(out, level) <= MaxHeadingsPerLevel
  {
    var sorted := SortBy(headings, SortKey);
    KeptKeys(sorted, Key, {}, map[]);
    KeptSubseq(sorted, Key, {}, map[]);
    SortedPages(headings);
    SubseqPages(Deduplicated(headings), EntriesOf(sorted));
    forall level ensures LevelCount(Deduplicated(headings), level) <= MaxHeadingsPerLevel {
      KeptPerLevel(sorted, Key, {}, map[], level);
    }
  }

  // ---------------------------------------------------------------------
  // extract_title

  function Texts(elements: seq<Element>): (ts: seq<string>)
    ensures |ts| == |elements|
    ensures forall i :: 0 <= i < |elements| ==> ts[i] == elements[i].text
  {
    seq(|elements|, i requires 0 <= i < |elements| => elements[i].text)
  }

  /** A title candidate: no form field or address, longer than ten
      characters, not numbered, and mentioning a form, an application, an
      overview or a document, or of at least three words. */
  predicate TitleLike(t: string) {
    var l := Lower(t);
    !AnyMatch(FormFieldPatterns, t) && !AnyMatch(AddressPatterns, t) &&
    |t| > 10 && !NumberDot(t) &&
    (Contains(l, "form") || Contains(l, "application") || Contains(l, "overview")
     || Contains(l, "document") || WordCount(t) >= 3)
  }

  predicate LongH1(h: Entry) { h.level == 1 && |h.text| > 10 }

  /** The first title-like text among the first ten elements, else the
      first H1 longer than ten characters, else the first heading, else
      "Document". */
  function Title(elements: seq<Element>, headings: seq<Entry>): (title: string)
    ensures (exists i :: 0 <= i < |elements| && i < 10 && title == elements[i].text && TitleLike(title))
      || (exists j :: 0 <= j < |headings| && title == headings[j].text)
      || title == "Document"
  {
    var candidates := Filter(Take(Texts(elements), 10), TitleLike);
    var h1 := Filter(headings, LongH1);
    if candidates != [] then
      assert candidates[0] in Take(Texts(elements), 10);
      candidates[0]
    else if h1 != [] then
      assert h1[0] in headings;
      h1[0].text
    else if headings != [] then headings[0].text
    else "Document"
  }

  /** The loop over the first ten elements that collects title
      candidates. */
  method TitleCandidates(first: seq<string>) returns (candidates: seq<string>)
    ensures candidates == Filter(first, TitleLike)
  {
    candidates := [];
    for i := 0 to |first|
      invariant candidates == Filter(first[..i], TitleLike)
    {
      FilterSnoc(first, i, TitleLike);
      var text := first[i];
      var form := MatchAny(FormFieldPatterns, text);
      var address := MatchAny(AddressPatterns, text);
      if form || address {
        continue;
      }
      var l := Lower(text);
      var keep := |text| > 10 && !NumberDot(text) &&
         (Contains(l, "form") || Contains(l, "application") || Contains(l, "overview")
          || Contains(l, "document") || WordCount(text) >= 3);
      assert keep == TitleLike(text);
      if keep {
        candidates := candidates + [text];
      }
    }
    assert first[..|first|] == first;
  }

  method ExtractTitle(elements: seq<Element>, headings: seq<Entry>) returns (title: string)
    ensures title == Title(elements, headings)
  {
    var candidates := TitleCandidates(Take(Texts(elements), 10));
    if candidates != [] {
      return candidates[0];
    }
    var h1 := Filter(headings, LongH1);
    if h1 != [] {
      return h1[0].text;
    }
    if headings != [] {
      return headings[0].text;
    }
    return "Document";
  }

  /** The title is the first title-like text among the first ten elements
      when there is one, and otherwise the first long H1 when there is one. */
  lemma TitlePreference(elements: seq<Element>, headings: seq<Entry>)
    ensures var ts := Take(Texts(elements), 10);
      match FirstWhere(ts, TitleLike)
      case Some(k) => Title(elements, headings) == elements[k].text
      case None =>
        match FirstWhere(headings, LongH1)
        case Some(k) => Title(elements, headings) == headings[k].text
        case None => Title(elements, headings) == (if headings == [] then "Document" else headings[0].text)
  {
    FilterHead(Take(Texts(elements), 10), TitleLike);
    FilterHead(headings, LongH1);
  }

  // ---------------------------------------------------------------------
  // process_document

  function CandidateOf(e: Element, st: SizeStats): Candidate {
    Candidate(HeadingLevel(e.text, e.size, st), e.text, e.page, e.size)
  }

  /** The heading candidates, in element order. */
  function Candidates(elements: seq<Element>, st: SizeStats): (cs: seq<Candidate>)
    ensures forall c :: c in cs ==> exists e :: e in elements && LikelyHeading(e, st) && c == CandidateOf(e, st)
  {
    if elements == [] then []
    else
      var init := elements[..|elements| - 1];
      var e := elements[|elements| - 1];
      var cs := Candidates(init, st);
      assert forall x :: x in init ==> x in elements;
      cs + (if LikelyHeading(e, st) then [CandidateOf(e, st)] else [])
  }

  datatype Outline = Outline(title: string, outline: seq<Entry>)

  function Processed(elements: seq<Element>): Outline {
    if elements == [] then Outline("Document", [])
    else
      var st := DocumentStats(elements);
      var headings := Deduplicated(Candidates(elements, st));
      Outline(Title(elements, headings), headings)
  }

  method ProcessDocument(elements: seq<Element>) returns (result: Outline)
    ensures result == Processed(elements)
  {
    if elements == [] {
      return Outline("Document", []);
    }
    var st := DocumentStats(elements);
    var candidates: seq<Candidate> := [];
    for i := 0 to |elements|
      invariant candidates == Candidates(elements[..i], st)
    {
      assert elements[..i + 1][..i] == elements[..i];
      var e := elements[i];
      var likely := IsLikelyHeading(e, st);
      if likely {
        var level := HeadingLevel(e.text, e.size, st);
        candidates := candidates + [Candidate(level, e.text, e.page, e.size)];
      }
    }
    assert elements[..|elements|] == elements;
    var headings := DeduplicateAndLimit(candidates);
    var title := ExtractTitle(elements, headings);
    result := Outline(title, headings);
  }

  /** `x` is the entry of a likely heading among the elements. */
  predicate FromElement(x: Entry, elements: seq<Element>, st: SizeStats) {
    exists e :: e in elements && LikelyHeading(e, st) && x == Entry(HeadingLevel(e.text, e.size, st), e.text, e.page)
  }

  /** The outline of a document: levels H1..H3, at most fifteen of each and
      so at most 45 entries, page order, distinct texts up to case and
      surrounding space, and every entry a likely heading of the document
      with the level determine_heading_level gives it. */
  lemma ProcessedShape(elements: seq<Element>)
    ensures var out := Processed(elements).outline;
      LevelsWithin(out, 1, 3) && |out| <= 3 * MaxHeadingsPerLevel &&
      PagesNonDecreasing(out) && DistinctKeys(out, Key) &&
      forall x :: x in out ==> FromElement(x, elements, DocumentStats(elements))
  {
    if elements != [] {
      var st := DocumentStats(elements);
      var cs := Candidates(elements, st);
      var sorted := SortBy(cs, SortKey);
      var out := Deduplicated(cs);
      DeduplicatedProperties(cs);
      SubseqMembers(out, EntriesOf(sorted));
      forall x | x in out ensures FromElement(x, elements, st) {
        var k :| 0 <= k < |sorted| && EntriesOf(sorted)[k] == x;
        assert sorted[k] in multiset(cs);
        assert sorted[k] in cs;
      }
      assert LevelsWithin(out, 1, 3) by {
        forall i | 0 <= i < |out| ensures 1 <= out[i].level <= 3 {
          assert out[i] in out;
        }
      }
      LevelCountsSum(out);
    }
  }
}
