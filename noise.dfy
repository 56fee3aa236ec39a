// Page-number and header/footer tests. The three multilingual variants
// (1A/main.py, 1A/main3.py, 1A/main4.py) carry identical copies of
// `is_page_number` and `is_footer_header`; this module is that one
// definition.

module Noise {
  import opened Text

  /** `\d+$` at position i: a maximal digit run, then the end of the text
      or a final newline. */
  predicate DigitsToEnd(s: string, i: nat)
    requires i <= |s|
  {
    var n := RunFrom(s, i, IsDigit);
    n > 0 && Dollar(s, i + n)
  }

  /** `^page\s+\d+$` */
  predicate PageWordNumber(l: string) {
    StartsWith(l, "page") &&
    var w := RunFrom(l, 4, IsSpace);
    w > 0 && DigitsToEnd(l, 4 + w)
  }

  /** `^\d+\s*of\s*\d+$` */
  predicate NumberOfNumber(l: string) {
    var d := RunFrom(l, 0, IsDigit);
    var w1 := RunFrom(l, d, IsSpace);
    d > 0 && StartsAt(l, d + w1, "of") &&
    var w2 := RunFrom(l, d + w1 + 2, IsSpace);
    DigitsToEnd(l, d + w1 + 2 + w2)
  }

  /** is_page_number: after strip(), a bare number of at most four
      characters, "page N" or "N of M" (the last two in any letter case). */
  predicate IsPageNumber(text: string) { PageNumberForm(Strip(text)) }

  /** The page-number test on an already stripped text. */
  predicate PageNumberForm(t: string) {
    t != [] && ((DigitsToEnd(t, 0) && |t| <= 4) || PageWordNumber(Lower(t)) || NumberOfNumber(Lower(t)))
  }

  /** `^\d{4}.*all rights reserved` */
  predicate YearRightsReserved(l: string) {
    |l| >= 4 && AllDigits(l[..4]) &&
    var m := RunFrom(l, 4, NotNewline);
    Contains(l[4..4 + m], "all rights reserved")
  }

  /** `^version\s+\d+` */
  predicate VersionNumber(l: string) {
    StartsWith(l, "version") &&
    var w := RunFrom(l, 7, IsSpace);
    w > 0 && 7 + w < |l| && IsDigit(l[7 + w])
  }

  /** `^\w+\.\w+`, meant for e-mail addresses and host names. */
  predicate DottedWords(l: string) {
    var n := RunFrom(l, 0, IsWordChar);
    n > 0 && n + 1 < |l| && l[n] == '.' && IsWordChar(l[n + 1])
  }

  /** is_footer_header: the stripped, lower-cased text matches one of the
      nine footer patterns, tried at its start. */
  predicate IsFooterHeader(text: string) { FooterForm(Lower(Strip(text))) }

  /** The footer test on an already stripped and lower-cased text. */
  predicate FooterForm(l: string) {
    l != [] &&
    (StartsWith(l, "copyright") || YearRightsReserved(l) || StartsWith(l, "confidential")
     || StartsWith(l, "proprietary") || StartsWith(l, "draft") || VersionNumber(l)
     || DottedWords(l) || StartsWith(l, "www.") || StartsWith(l, "http"))
  }

  // ---------------------------------------------------------------------
  // What the tests accept and reject.

  /** Both tests read only the stripped text. */
  lemma NoiseIgnoresSurroundingSpace(text: string)
    ensures IsPageNumber(Strip(text)) == IsPageNumber(text)
    ensures IsFooterHeader(Strip(text)) == IsFooterHeader(text)
    ensures AllSpaces(text) ==> !IsPageNumber(text) && !IsFooterHeader(text)
  {
    StripIdempotent(text);
    if AllSpaces(text) {
      StripIsTrimmedSlice(text);
      assert Strip(text) == [];
      assert Lower(Strip(text)) == [];
    }
  }

  lemma DigitsToEndAll(s: string)
    requires s != [] && AllDigits(s)
    ensures DigitsToEnd(s, 0)
  {
    RunFromExact(s, 0, |s|, IsDigit);
  }

  /** A page-number test on a text that strip() leaves alone. */
  lemma PageNumberOfTrimmed(t: string)
    requires t != [] && Trimmed(t)
    ensures IsPageNumber(t) == ((DigitsToEnd(t, 0) && |t| <= 4) || PageWordNumber(Lower(t)) || NumberOfNumber(Lower(t)))
  {
    StripOfTrimmed(t);
    assert IsPageNumber(t) == PageNumberForm(t);
  }

  /** Every number below 10000 is a page number. */
  lemma SmallNumberIsPageNumber(n: nat)
    requires n < 10000
    ensures IsPageNumber(NatToString(n))
  {
    var t := NatToString(n);
    assert Pow10(4) == 10000;
    NatToStringLength(n, 4);
    DigitsToEndAll(t);
    PageNumberOfTrimmed(t);
  }

  /** A number of five or more digits is not. */
  lemma LargeNumberIsNotPageNumber(n: nat)
    requires n >= 10000
    ensures !IsPageNumber(NatToString(n))
  {
    assert Pow10(4) == 10000;
    NatToStringLengthBelow(n, 4);
    LongDigitsNotPageNumber(NatToString(n));
  }

  lemma LongDigitsNotPageNumber(t: string)
    requires |t| > 4 && AllDigits(t)
    ensures !IsPageNumber(t)
  {
    assert Trimmed(t);
    PageNumberOfTrimmed(t);
    AllDigitsNoPageWords(t);
  }

  lemma AllDigitsNoPageWords(t: string)
    requires t != [] && AllDigits(t)
    ensures !PageWordNumber(Lower(t)) && !NumberOfNumber(Lower(t))
  {
    LowerNoUpper(t);
    RunFromExact(t, 0, |t|, IsDigit);
    assert t[0] != "page"[0];
  }

  /** "Page N" and "N of M" are page numbers. */
  lemma PageWordIsPageNumber(n: nat)
    ensures IsPageNumber("Page " + NatToString(n))
  {
    var d := NatToString(n);
    var t := "Page " + d;
    assert t[0] == 'P' && t[|t| - 1] == d[|d| - 1];
    PageNumberOfTrimmed(t);
    PageWordLower(d);
    PageWordDigits(d);
  }

  lemma PageWordLower(d: string)
    requires AllDigits(d)
    ensures Lower("Page " + d) == "page " + d
  {
    LowerConcat("Page ", d);
    LowerNoUpper(d);
    assert Lower("Page ") == "page " by {
      assert Lower("Page ")[0] == 'p';
    }
  }

  lemma PageWordDigits(d: string)
    requires d != [] && AllDigits(d)
    ensures PageWordNumber("page " + d)
  {
    var l := "page " + d;
    RunFromExact(l, 4, 5, IsSpace);
    RunFromExact(l, 5, |l|, IsDigit);
  }

  lemma NumberOfNumberIsPageNumber(n: nat, m: nat)
    ensures IsPageNumber(NatToString(n) + " of " + NatToString(m))
  {
    NumberOfIsPageNumber(NatToString(n), NatToString(m));
  }

  lemma NumberOfIsPageNumber(a: string, b: string)
    requires a != [] && AllDigits(a) && b != [] && AllDigits(b)
    ensures IsPageNumber(a + " of " + b)
  {
    var t := a + " of " + b;
    assert t[0] == a[0] && t[|t| - 1] == b[|b| - 1];
    PageNumberOfTrimmed(t);
    OfTextIsLower(a, b);
    NumberOfDigits(a, b);
  }

  lemma OfTextIsLower(a: string, b: string)
    requires AllDigits(a) && AllDigits(b)
    ensures Lower(a + " of " + b) == a + " of " + b
  {
    var t := a + " of " + b;
    forall i | 0 <= i < |t| ensures !IsUpper(t[i]) {
      if i < |a| { assert t[i] == a[i]; }
      else if i >= |a| + 4 { assert t[i] == b[i - |a| - 4]; }
    }
    LowerNoUpper(t);
  }

  lemma NumberOfDigits(a: string, b: string)
    requires a != [] && AllDigits(a) && b != [] && AllDigits(b)
    ensures NumberOfNumber(a + " of " + b)
  {
    var u := " of " + b;
    assert a + " of " + b == a + u;
    OfDigits(b);
    assert StartsAt(u, 1, "of") by { assert u[1..3] == "of"; }
    NumberAndTail(a, u);
  }

  /** A number in front of a tail " of N" keeps the tail's shape. */
  lemma NumberAndTail(a: string, u: string)
    requires a != [] && AllDigits(a) && 4 <= |u|
    requires RunFrom(u, 0, IsSpace) == 1 && StartsAt(u, 1, "of") && RunFrom(u, 3, IsSpace) == 1
    requires DigitsToEnd(u, 4)
    ensures NumberOfNumber(a + u)
  {
    assert IsSpace(u[0]);
    LeadingDigits(a, u);
    RunFromShift(a, u, 0, IsSpace);
    RunFromShift(a, u, 3, IsSpace);
    ShiftedTail(a, u, 1, 4);
    NumberOfParts(a + u, |a|);
  }

  /** Putting text in front keeps a match of "of" and of `\d+$`. */
  lemma ShiftedTail(a: string, u: string, i: nat, j: nat)
    requires StartsAt(u, i, "of") && j <= |u| && DigitsToEnd(u, j)
    ensures StartsAt(a + u, |a| + i, "of") && DigitsToEnd(a + u, |a| + j)
  {
    var t := a + u;
    assert t[|a| + i..|a| + i + 2] == u[i..i + 2];
    RunFromShift(a, u, j, IsDigit);
  }

  /** The digit run of a number followed by a space stops at the space. */
  /** " of N": one space, "of", one space, then the digits to the end. */
  lemma OfDigits(b: string)
    requires b != [] && AllDigits(b)
    ensures var u := " of " + b;
      RunFrom(u, 0, IsSpace) == 1 && RunFrom(u, 3, IsSpace) == 1 && RunFrom(u, 4, IsDigit) == |b|
  {
    var u := " of " + b;
    RunFromExact(u, 0, 1, IsSpace);
    RunFromExact(u, 3, 4, IsSpace);
    RunFromShift(" of ", b, 0, IsDigit);
    RunFromExact(b, 0, |b|, IsDigit);
  }

  /** `^\d+\s*of\s*\d+$` with exactly one space on either side of "of". */
  lemma NumberOfParts(t: string, k: nat)
    requires k + 4 <= |t|
    requires RunFrom(t, 0, IsDigit) == k && k > 0
    requires RunFrom(t, k, IsSpace) == 1 && StartsAt(t, k + 1, "of") && RunFrom(t, k + 3, IsSpace) == 1
    requires DigitsToEnd(t, k + 4)
    ensures NumberOfNumber(t)
  {
  }

  /** A dotted section number such as "2.1 Background" counts as a footer,
      because it starts with word characters, a dot and a word character. */
  lemma SectionNumberIsFooter(n: nat, m: nat, rest: string)
    ensures IsFooterHeader(NatToString(n) + "." + NatToString(m) + rest)
  {
    var a, b := NatToString(n), NatToString(m);
    var p := a + "." + b;
    assert p + rest == NatToString(n) + "." + NatToString(m) + rest;
    assert p[|p| - 1] == b[|b| - 1];
    DottedPrefixIsFooter(a, b, rest);
  }

  lemma DottedPrefixIsFooter(a: string, b: string, rest: string)
    requires a != [] && AllDigits(a) && b != [] && AllDigits(b)
    ensures IsFooterHeader(a + "." + b + rest)
  {
    var p := a + "." + b;
    assert p[0] == a[0] && p[|p| - 1] == b[|b| - 1];
    StripKeepsPrefix(p, rest);
    var t := Strip(p + rest);
    LowerPrefix(t, p);
    DottedLower(a, b);
    var l := Lower(t);
    assert StartsWith(l, p);
    DottedWordsOfPrefix(a, b, l);
    assert l != [] by { assert |l| >= |p|; }
    assert FooterForm(l);
  }

  /** A dotted number has no upper-case letter to lower. */
  lemma DottedLower(a: string, b: string)
    requires AllDigits(a) && AllDigits(b)
    ensures Lower(a + "." + b) == a + "." + b
  {
    var p := a + "." + b;
    forall i | 0 <= i < |p| ensures !IsUpper(p[i]) {
      if i < |a| { assert p[i] == a[i]; }
      else if i > |a| { assert p[i] == b[i - |a| - 1]; }
    }
    LowerNoUpper(p);
  }

  lemma DottedWordsOfPrefix(a: string, b: string, l: string)
    requires a != [] && AllDigits(a) && b != [] && AllDigits(b)
    requires StartsWith(l, a + "." + b)
    ensures DottedWords(l)
  {
    var p := a + "." + b;
    assert l[..|p|] == p;
    assert l[|a|] == '.' && l[|a| + 1] == b[0];
    forall k | 0 <= k < |a| ensures IsWordChar(l[k]) {
      assert l[k] == p[k] == a[k];
    }
    RunFromExact(l, 0, |a|, IsWordChar);
  }

  /** Anything that starts with "Copyright", in any letter case. */
  lemma CopyrightIsFooter(rest: string)
    ensures IsFooterHeader("Copyright" + rest)
  {
    var p := "Copyright";
    StripKeepsPrefix(p, rest);
    var t := Strip(p + rest);
    LowerPrefix(t, p);
    assert Lower(p) == "copyright" by {
      assert Lower(p)[0] == 'c';
    }
  }
}
