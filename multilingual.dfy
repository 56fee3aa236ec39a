// 1A/main.py: the multilingual classifier with a 25-script ladder,
// script-specific text cleaning and script-specific heading patterns.

module Multilingual {
  import opened Common
  import opened Text
  import opened Scripts
  import opened Patterns
  import opened FontGroups

  // ---------------------------------------------------------------------
  // detect_language_script

  /** The full ladder: the first range that contains the code point
      decides, so each character counts for at most one script. */
  function Ladder(c: char): Option<Script> {
    var n := c as int;
    if (0x20 <= n <= 0x7F) || (0xA0 <= n <= 0x17F) || (0x100 <= n <= 0x24F) || (0x1E00 <= n <= 0x1EFF) then Some(Latin)
    else if (0x4E00 <= n <= 0x9FFF) || (0x3040 <= n <= 0x309F) || (0x30A0 <= n <= 0x30FF) || (0xAC00 <= n <= 0xD7AF) then Some(Cjk)
    else if (0x600 <= n <= 0x6FF) || (0x750 <= n <= 0x77F) || (0x8A0 <= n <= 0x8FF) then Some(Arabic)
    else if 0x400 <= n <= 0x4FF then Some(Cyrillic)
    else if 0x900 <= n <= 0x97F then Some(Devanagari)
    else if 0xE00 <= n <= 0xE7F then Some(Thai)
    else if 0x590 <= n <= 0x5FF then Some(Hebrew)
    else if 0x370 <= n <= 0x3FF then Some(Greek)
    else if 0x10A0 <= n <= 0x10FF then Some(Georgian)
    else if 0x530 <= n <= 0x58F then Some(Armenian)
    else if 0xB80 <= n <= 0xBFF then Some(Tamil)
    else if 0xC00 <= n <= 0xC7F then Some(Telugu)
    else if 0xC80 <= n <= 0xCFF then Some(Kannada)
    else if 0xD00 <= n <= 0xD7F then Some(Malayalam)
    else if 0x980 <= n <= 0x9FF then Some(Bengali)
    else if 0xA00 <= n <= 0xA7F then Some(Gurmukhi)
    else if 0xA80 <= n <= 0xAFF then Some(Gujarati)
    else if 0xB00 <= n <= 0xB7F then Some(Oriya)
    else if 0xD80 <= n <= 0xDFF then Some(Sinhala)
    else if 0x1000 <= n <= 0x109F then Some(Myanmar)
    else if 0x1780 <= n <= 0x17FF then Some(Khmer)
    else if 0xE80 <= n <= 0xEFF then Some(Lao)
    else if 0xF00 <= n <= 0xFFF then Some(Tibetan)
    else if 0x1800 <= n <= 0x18AF then Some(Mongolian)
    else if 0x1200 <= n <= 0x137F then Some(Ethiopic)
    else None
  }

  function ScriptOf(text: string): Script {
    Detect(text, Ladder, AllScripts)
  }

  /** Empty text, or text without a counted character, gives latin;
      otherwise the detected script was counted for some character. */
  lemma ScriptOfCounted(text: string)
    ensures ScriptOf(text) == Latin || exists i :: 0 <= i < |text| && Ladder(text[i]) == Some(ScriptOf(text))
    ensures (forall i :: 0 <= i < |text| ==> Ladder(text[i]).None?) ==> ScriptOf(text) == Latin
  {
    DetectCounted(text, Ladder, AllScripts);
  }

  method DetectLanguageScriptFull(text: string) returns (script: Script)
    ensures script == ScriptOf(text)
  {
    forall c | Ladder(c).Some? ensures Ladder(c).value in AllScripts {
      ListedScript(Ladder(c).value);
    }
    script := DetectLanguageScript(text, Ladder, AllScripts);
  }

  // ---------------------------------------------------------------------
  // preprocess_multilingual_text (Unicode normalisation taken as the
  // identity)

  /** U+200E, U+200F and U+202A..U+202E, the directional marks removed
      from Arabic and Hebrew text. */
  predicate IsBidiMark(c: char) {
    c == '\U{200E}' || c == '\U{200F}' || ('\U{202A}' <= c <= '\U{202E}')
  }

  /** The full-width forms U+FF01..U+FF5E mapped to ASCII, U+3000 to a
      plain space. */
  function HalfWidth(c: char): char {
    var n := c as int;
    if n == 0x3000 then ' ' else if 0xFF01 <= n <= 0xFF5E then (n - 0xFEE0) as char else c
  }

  function HalfWidthText(s: string): (r: string)
    ensures |r| == |s|
  {
    seq(|s|, i requires 0 <= i < |s| => HalfWidth(s[i]))
  }

  /** Every branch ends with strip() and `\s+` -> ' ', so the result is
      trimmed, has no two adjacent whitespace characters and no whitespace
      other than the plain space. */
  function Preprocess(text: string): (r: string)
    ensures Collapsed(r)
  {
    var script := ScriptOf(text);
    if script == Arabic || script == Hebrew then
      CollapseWhitespace(Filter(text, c => !IsBidiMark(c)))
    else if script == Cjk then
      CollapseWhitespace(HalfWidthText(text))
    else
      CollapseWhitespace(text)
  }

  /** Directional marks never survive the Arabic and Hebrew branch. */
  lemma PreprocessDropsBidiMarks(text: string)
    requires ScriptOf(text) == Arabic || ScriptOf(text) == Hebrew
    ensures forall i :: 0 <= i < |Preprocess(text)| ==> !IsBidiMark(Preprocess(text)[i])
  {
    var f := Filter(text, c => !IsBidiMark(c));
    assert Preprocess(text) == CollapseWhitespace(f);
    CollapseKeeps(f, c => !IsBidiMark(c));
  }

  // ---------------------------------------------------------------------
  // has_heading_characteristics

  /** The letter class of the upper-case pattern: A-Z, Latin-1 and Latin
      Extended, Cyrillic and Greek. */
  predicate UpperishLetter(c: char) {
    var n := c as int;
    IsUpper(c) || (0xC0 <= n <= 0x17F) || (0x100 <= n <= 0x24F) || (0x400 <= n <= 0x4FF) || (0x370 <= n <= 0x3FF)
  }

  /** `^\d+\.?\s*[CJK]+` */
  predicate NumberedCjkLoose(t: string) {
    var d := RunFrom(t, 0, IsDigit);
    var k := if d < |t| && t[d] == '.' then d + 1 else d;
    var w := RunFrom(t, k, IsSpace);
    d > 0 && k + w < |t| && IsCjkLetter(t[k + w])
  }

  predicate CjkPair(t: string) { TwoFrom(t, IsCjkLetter) }

  /** `^[Arabic]{3,}` */
  predicate ArabicRun(t: string) {
    RunFrom(t, 0, IsArabicLetter) >= 3
  }

  /** The string the source builds from `'^[Arabic]{3,},' '^الفصل\s+\d+'`:
      a comma is missing between the two literals, so they form one
      pattern whose second `^` would have to match after at least four
      characters; `^` only matches at position 0, so nothing matches. */
  predicate ArabicRunCommaChapter(t: string) {
    var n := RunFrom(t, 0, IsArabicLetter);
    n >= 3 && n < |t| && t[n] == ',' && AtStart(n + 1) && KeywordNumber(t[n + 1..], ArabicChapterWord)
  }

  /** Where `^` matches without MULTILINE. */
  predicate AtStart(i: nat) { i == 0 }

  lemma ConcatenatedPatternNeverMatches(t: string)
    ensures !ArabicRunCommaChapter(t)
  {
  }

  /** The Arabic pattern list as written: two entries. */
  function ArabicPatternsAsWritten(): seq<string -> bool> {
    [NumberedArabic, ArabicRunCommaChapter]
  }

  /** The Arabic pattern list as evidently intended: three entries. */
  function ArabicPatterns(): seq<string -> bool> {
    [NumberedArabic, ArabicRun, ArabicChapter]
  }

  /** The code-point block of each Indic script with a numbered pattern. */
  function IndicRange(script: Script): (r: Option<(int, int)>)
    ensures r.Some? ==> r.value.0 < r.value.1
  {
    match script
    case Devanagari => Some((0x900, 0x97F))
    case Tamil => Some((0xB80, 0xBFF))
    case Telugu => Some((0xC00, 0xC7F))
    case Kannada => Some((0xC80, 0xCFF))
    case Malayalam => Some((0xD00, 0xD7F))
    case Bengali => Some((0x980, 0x9FF))
    case _ => None
  }

  /** `^\d+[start-end]+` */
  predicate NumberedIn(t: string, lo: int, hi: int) {
    var d := RunFrom(t, 0, IsDigit);
    d > 0 && d < |t| && lo <= t[d] as int <= hi
  }

  function PatternsWith(script: Script, arabic: seq<string -> bool>): seq<string -> bool> {
    if script == Latin || script == Cyrillic || script == Greek then
      [NumberSpace, (t: string) => TwoFrom(t, UpperishLetter), WordColon, ChapterNumber, SectionNumber]
    else if script == Cjk then [NumberedCjkLoose, CjkPair, CjkChapter, CjkSection]
    else if script == Arabic then arabic
    else match IndicRange(script)
      case Some(r) => [(t: string) => NumberedIn(t, r.0, r.1)]
      case None => []
  }

  /** The body-size threshold: 16 pt for CJK, 14 pt for Devanagari, Tamil
      and Telugu, 12 pt otherwise (in hundredths). */
  function SizeThreshold(script: Script): int {
    if script == Cjk then 1600
    else if script == Devanagari || script == Tamil || script == Telugu then 1400
    else 1200
  }

  /** A pattern for the script, upper or title case, or a font cue. */
  predicate CharacteristicsWith(span: Span, arabic: seq<string -> bool>) {
    var script := ScriptOf(span.text);
    Cues(span, PatternsWith(script, arabic), SizeThreshold(script))
  }

  /** The tests once the script's patterns and size threshold are known. */
  predicate Cues(span: Span, patterns: seq<string -> bool>, threshold: int) {
    AnyMatch(patterns, span.text) || IsUpperStr(span.text) || IsTitleStr(span.text)
    || BoldFlag(span.flags) || span.size > threshold
    || (ItalicFlag(span.flags) && span.size > threshold - 200)
  }

  /** has_heading_characteristics as written. */
  predicate HasHeadingCharacteristicsAsWritten(span: Span) {
    CharacteristicsWith(span, ArabicPatternsAsWritten())
  }

  /** has_heading_characteristics with the Arabic patterns separated. */
  predicate HasHeadingCharacteristics(span: Span) {
    CharacteristicsWith(span, ArabicPatterns())
  }

  /** Bold spans, spans above 16 pt and upper-case or title-case texts are
      always accepted, in every script. */
  lemma AcceptsBoldLargeOrCased(span: Span)
    requires BoldFlag(span.flags) || span.size > 1600 || IsUpperStr(span.text) || IsTitleStr(span.text)
    ensures HasHeadingCharacteristics(span) && HasHeadingCharacteristicsAsWritten(span)
  {
  }

  /** The corrected patterns accept everything the written ones accept. */
  lemma CorrectedAcceptsMore(span: Span)
    requires HasHeadingCharacteristicsAsWritten(span)
    ensures HasHeadingCharacteristics(span)
  {
    var script := ScriptOf(span.text);
    if script == Arabic && AnyMatch(ArabicPatternsAsWritten(), span.text) {
      ConcatenatedPatternNeverMatches(span.text);
      assert NumberedArabic(span.text);
      assert ArabicPatterns()[0](span.text);
    }
  }

  /** The counterexample: the Arabic word for "chapter" set in 10 pt
      regular type. It is Arabic text of five letters, so the intended
      `^[Arabic]{3,}` accepts it, while the pattern list as written does
      not, and no other test fires. */
  lemma ArabicHeadingMissed()
    ensures var span := Span(ArabicChapterWord, 1000, 0, "Arial", 1, 0, 0);
      !HasHeadingCharacteristicsAsWritten(span) && HasHeadingCharacteristics(span)
  {
    ArabicWordScript();
    ArabicWordCase();
    ArabicPatternsDisagree();
    PlainArabicSpan(Span(ArabicChapterWord, 1000, 0, "Arial", 1, 0, 0));
  }

  /** A regular-weight Arabic span of at most 12 pt without case is
      decided by the Arabic patterns alone. */
  lemma PlainArabicSpan(span: Span)
    requires ScriptOf(span.text) == Arabic && span.flags == 0 && span.size <= 1200
    requires !IsUpperStr(span.text) && !IsTitleStr(span.text)
    ensures HasHeadingCharacteristicsAsWritten(span) == AnyMatch(ArabicPatternsAsWritten(), span.text)
    ensures HasHeadingCharacteristics(span) == AnyMatch(ArabicPatterns(), span.text)
  {
    ArabicCharacteristics(span, ArabicPatternsAsWritten());
    ArabicCharacteristics(span, ArabicPatterns());
  }

  lemma ArabicCharacteristics(span: Span, arabic: seq<string -> bool>)
    requires ScriptOf(span.text) == Arabic && span.flags == 0 && span.size <= 1200
    requires !IsUpperStr(span.text) && !IsTitleStr(span.text)
    ensures CharacteristicsWith(span, arabic) == AnyMatch(arabic, span.text)
  {
    assert PatternsWith(Arabic, arabic) == arabic;
    assert SizeThreshold(Arabic) == 1200;
    CuesOfPlainSpan(span, arabic, 1200);
  }

  /** Regular type at or below the threshold and no case: only the
      patterns can accept. */
  lemma CuesOfPlainSpan(span: Span, patterns: seq<string -> bool>, threshold: int)
    requires span.flags == 0 && span.size <= threshold
    requires !IsUpperStr(span.text) && !IsTitleStr(span.text)
    ensures Cues(span, patterns, threshold) == AnyMatch(patterns, span.text)
  {
    assert !BoldFlag(span.flags) && !ItalicFlag(span.flags);
  }

  /** The word is Arabic text: all five letters fall in the Arabic block. */
  lemma ArabicWordScript()
    ensures ScriptOf(ArabicChapterWord) == Arabic
  {
    ListedScript(Arabic);
    DetectUniform(ArabicChapterWord, Ladder, AllScripts, Arabic);
  }

  /** The intended list matches the word through `^[Arabic]{3,}`; neither
      entry of the list as written does. */
  lemma ArabicPatternsDisagree()
    ensures AnyMatch(ArabicPatterns(), ArabicChapterWord)
    ensures !AnyMatch(ArabicPatternsAsWritten(), ArabicChapterWord)
  {
    var t := ArabicChapterWord;
    RunFromExact(t, 0, 5, IsArabicLetter);
    assert ArabicPatterns()[1](t);
    assert RunFrom(t, 0, IsDigit) == 0;
    assert !NumberedArabic(t);
    ConcatenatedPatternNeverMatches(t);
    forall i | 0 <= i < 2 ensures !ArabicPatternsAsWritten()[i](t) {
    }
  }

  /** Arabic letters have no case, so the word is neither upper nor title
      case. */
  lemma ArabicWordCase()
    ensures !IsUpperStr(ArabicChapterWord) && !IsTitleStr(ArabicChapterWord)
  {
    var t := ArabicChapterWord;
    assert !HasUpper(t);
    assert !TitleFrom(t[5..], false, false);
    assert !TitleFrom(t[4..], false, false);
    assert !TitleFrom(t[3..], false, false);
    assert !TitleFrom(t[2..], false, false);
    assert !TitleFrom(t[1..], false, false);
  }

  // ---------------------------------------------------------------------
  // classify_headings_multilingual and extract_title

  /** classify_headings_multilingual, with the pattern list as written. */
  method ClassifyHeadings(spans: seq<Span>) returns (headings: seq<Entry>)
    ensures headings == BasicClassified(spans, HasHeadingCharacteristicsAsWritten)
  {
    headings := ClassifyBasic(spans, HasHeadingCharacteristicsAsWritten);
  }
}
