// Regular-expression building blocks that several variants share, each a
// hand-written predicate over the text (`re.match` anchors at the start).

module Patterns {
  import opened Text

  predicate IsCjkLetter(c: char) {
    var n := c as int;
    (0x4E00 <= n <= 0x9FFF) || (0x3040 <= n <= 0x309F) || (0x30A0 <= n <= 0x30FF)
  }

  predicate IsArabicLetter(c: char) {
    var n := c as int;
    (0x600 <= n <= 0x6FF) || (0x750 <= n <= 0x77F)
  }

  /** `^<keyword>\s+\d+`, case-sensitive. */
  predicate KeywordNumber(t: string, keyword: string) {
    StartsWith(t, keyword) &&
    var w := RunFrom(t, |keyword|, IsSpace);
    w > 0 && |keyword| + w < |t| && IsDigit(t[|keyword| + w])
  }

  predicate ChapterNumber(t: string) { KeywordNumber(t, "Chapter") }
  predicate SectionNumber(t: string) { KeywordNumber(t, "Section") }

  /** `^第\d+<marker>`: the CJK chapter (章) and section (节) forms. */
  predicate CjkOrdinal(t: string, marker: char) {
    |t| > 0 && t[0] == '\U{7B2C}' &&
    var d := RunFrom(t, 1, IsDigit);
    d > 0 && 1 + d < |t| && t[1 + d] == marker
  }

  predicate CjkChapter(t: string) { CjkOrdinal(t, '\U{7AE0}') }
  predicate CjkSection(t: string) { CjkOrdinal(t, '\U{8282}') }

  /** `^\d+[Arabic]+` */
  predicate NumberedArabic(t: string) {
    var d := RunFrom(t, 0, IsDigit);
    d > 0 && d < |t| && IsArabicLetter(t[d])
  }

  /** The Arabic word for "chapter". */
  const ArabicChapterWord: string := "\U{0627}\U{0644}\U{0641}\U{0635}\U{0644}"

  /** `^الفصل\s+\d+` */
  predicate ArabicChapter(t: string) { KeywordNumber(t, ArabicChapterWord) }

  /** `^\d+\.` */
  predicate NumberDot(t: string) {
    var d := RunFrom(t, 0, IsDigit);
    d > 0 && d < |t| && t[d] == '.'
  }

  /** `^\d+\.?\s+`: a number, an optional dot, then whitespace. */
  predicate NumberSpace(t: string) {
    var d := RunFrom(t, 0, IsDigit);
    var k := if d < |t| && t[d] == '.' then d + 1 else d;
    d > 0 && k < |t| && IsSpace(t[k])
  }

  /** `^\w+\s*:`: a word, optional whitespace, a colon. */
  predicate WordColon(t: string) {
    var n := RunFrom(t, 0, IsWordChar);
    var j := n + RunFrom(t, n, IsSpace);
    n > 0 && j < |t| && t[j] == ':'
  }

  /** `^[class]{2,}`: the first two characters belong to the class. */
  predicate TwoFrom(t: string, inClass: char -> bool) {
    |t| >= 2 && inClass(t[0]) && inClass(t[1])
  }

  /** `^\d+\.\s*$` */
  predicate NumberDotOnly(t: string) {
    var d := RunFrom(t, 0, IsDigit);
    d > 0 && d < |t| && t[d] == '.' && Dollar(t, d + 1 + RunFrom(t, d + 1, IsSpace))
  }

  predicate IsLetterOrSpace(c: char) { IsLetter(c) || IsSpace(c) }
}
