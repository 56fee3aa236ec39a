// 1A/main3.py: the compact multilingual classifier: a four-script
// counter, three heading patterns, a case test and a 14 pt size cut.

module Multilingual3 {
  import opened Common
  import opened Text
  import opened Scripts
  import opened Patterns
  import opened FontGroups

  /** preprocess_multilingual_text: normalisation (taken as the identity),
      then strip() and `\s+` -> ' '. The right-to-left test that follows
      has an empty body, so it cannot change the result. */
  function Preprocess(text: string): (r: string)
    ensures Collapsed(r)
  {
    CollapseWhitespace(text)
  }

  /** Cleaning a cleaned text changes nothing. */
  lemma PreprocessIdempotent(text: string)
    ensures Preprocess(Preprocess(text)) == Preprocess(text)
  {
    CollapseIdempotent(text);
  }

  // ---------------------------------------------------------------------
  // detect_language_script

  function Ladder(c: char): (r: Option<Script>)
    ensures r.Some? ==> r.value in CoreScripts
  {
    var n := c as int;
    if (0x20 <= n <= 0x7F) || (0xA0 <= n <= 0x17F) then Some(Latin)
    else if (0x4E00 <= n <= 0x9FFF) || (0x3040 <= n <= 0x309F) || (0x30A0 <= n <= 0x30FF) then Some(Cjk)
    else if (0x600 <= n <= 0x6FF) || (0x750 <= n <= 0x77F) then Some(Arabic)
    else if 0x400 <= n <= 0x4FF then Some(Cyrillic)
    else None
  }

  function ScriptOf(text: string): Script {
    Detect(text, Ladder, CoreScripts)
  }

  /** Only the four counted scripts come out; empty text and texts with no
      counted character give latin. */
  lemma ScriptOfIsCore(text: string)
    ensures ScriptOf(text) in CoreScripts
    ensures (forall i :: 0 <= i < |text| ==> Ladder(text[i]).None?) ==> ScriptOf(text) == Latin
  {
    DetectCounted(text, Ladder, CoreScripts);
  }

  method DetectLanguageScript3(text: string) returns (script: Script)
    ensures script == ScriptOf(text)
  {
    script := DetectLanguageScript(text, Ladder, CoreScripts);
  }

  // ---------------------------------------------------------------------
  // has_heading_characteristics

  /** The class of the upper-case pattern: A-Z, Latin-1 and Latin
      Extended-A, CJK ideographs and kana. */
  predicate UpperOrCjk(c: char) {
    var n := c as int;
    IsUpper(c) || (0xC0 <= n <= 0x17F) || (0x4E00 <= n <= 0x9FFF) || (0x3040 <= n <= 0x309F) || (0x30A0 <= n <= 0x30FF)
  }

  predicate UpperPair(t: string) { TwoFrom(t, UpperOrCjk) }

  const HeadingPatterns: seq<string -> bool> := [NumberSpace, UpperPair, WordColon]

  /** A heading pattern, upper or title case, bold, or larger than 14 pt. */
  predicate HasHeadingCharacteristics(span: Span) {
    AnyMatch(HeadingPatterns, span.text) || IsUpperStr(span.text) || IsTitleStr(span.text)
    || BoldFlag(span.flags) || span.size > 1400
  }

  /** "N rest" and "N. rest" are headings whatever their font. */
  lemma NumberedTextAccepted(span: Span, n: nat, dot: bool, rest: string)
    requires span.text == NatToString(n) + (if dot then "." else "") + " " + rest
    ensures HasHeadingCharacteristics(span)
  {
    var d := NatToString(n);
    var t := span.text;
    assert t[..|d|] == d;
    RunFromExact(t, 0, |d|, IsDigit);
    assert NumberSpace(t);
    assert HeadingPatterns[0](t);
  }

  /** A word followed by a colon ("Introduction:") is a heading. */
  lemma LabelAccepted(span: Span, w: string, rest: string)
    requires w != [] && forall i :: 0 <= i < |w| ==> IsWordChar(w[i])
    requires span.text == w + ":" + rest
    ensures HasHeadingCharacteristics(span)
  {
    var t := span.text;
    RunFromExact(t, 0, |w|, IsWordChar);
    assert RunFrom(t, |w|, IsSpace) == 0;
    assert WordColon(t);
    assert HeadingPatterns[2](t);
  }

  // ---------------------------------------------------------------------
  // classify_headings_multilingual

  method ClassifyHeadings(spans: seq<Span>) returns (headings: seq<Entry>)
    ensures headings == BasicClassified(spans, HasHeadingCharacteristics)
  {
    headings := ClassifyBasic(spans, HasHeadingCharacteristics);
  }
}
