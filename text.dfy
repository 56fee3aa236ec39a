/**
 * Character classes and the string operations that every variant of the
 * heading classifier uses: Python's strip(), split(), lower(), isupper(),
 * istitle(), isnumeric(), the `re.sub(r'\s+', ' ', ...)` whitespace squeeze
 * and the small regular-expression building blocks (maximal runs, `$`).
 */
module Text {

  /** Python's str.isspace(): the characters matched by `\s`, removed by
      strip() and separating the words of split(). */
  predicate IsSpace(c: char) {
    var n := c as int;
    (9 <= n <= 13) || (0x1C <= n <= 0x20) || n == 0x85 || n == 0xA0 || n == 0x1680
    || (0x2000 <= n <= 0x200A) || n == 0x2028 || n == 0x2029 || n == 0x202F
    || n == 0x205F || n == 0x3000
  }

  // ASCII approximations of Python's Unicode-aware `\d`, `\w` and letter cases.
  predicate IsDigit(c: char) { '0' <= c <= '9' }
  predicate IsUpper(c: char) { 'A' <= c <= 'Z' }
  predicate IsLower(c: char) { 'a' <= c <= 'z' }
  predicate IsLetter(c: char) { IsUpper(c) || IsLower(c) }
  predicate IsWordChar(c: char) { IsLetter(c) || IsDigit(c) || c == '_' }
  predicate IsDot(c: char) { c == '.' }
  predicate NotNewline(c: char) { c != '\n' }

  function LowerChar(c: char): char {
    if IsUpper(c) then (c as int + 32) as char else c
  }

  /** str.lower() */
  function Lower(s: string): (r: string)
    ensures |r| == |s|
    ensures forall i :: 0 <= i < |s| ==> r[i] == LowerChar(s[i])
  {
    seq(|s|, i requires 0 <= i < |s| => LowerChar(s[i]))
  }

  predicate StartsWith(s: string, p: string) {
    |p| <= |s| && s[..|p|] == p
  }

  predicate EndsWith(s: string, p: string) {
    |p| <= |s| && s[|s| - |p|..] == p
  }

  /** Appending a suffix makes the text end with it. */
  lemma EndsWithAppended(s: string, p: string)
    ensures EndsWith(s + p, p)
  {
    assert (s + p)[|s + p| - |p|..] == p;
  }

  /** `sub in s` */
  predicate Contains(s: string, sub: string)
    decreases |s|
  {
    StartsWith(s, sub) || (|s| > 0 && Contains(s[1..], sub))
  }

  function CountChar(s: string, c: char): nat {
    if s == [] then 0 else (if s[0] == c then 1 else 0) + CountChar(s[1..], c)
  }

  /** Length of the maximal run of characters satisfying p that starts at i:
      the greedy `p+`/`p*` of a regular expression. */
  function RunFrom(s: string, i: nat, p: char -> bool): (n: nat)
    requires i <= |s|
    ensures i + n <= |s|
    ensures forall k :: i <= k < i + n ==> p(s[k])
    ensures i + n == |s| || !p(s[i + n])
    decreases |s| - i
  {
    if i < |s| && p(s[i]) then 1 + RunFrom(s, i + 1, p) else 0
  }

  /** Where Python's `$` (without MULTILINE) matches: at the end, or just
      before a final newline. */
  predicate Dollar(s: string, i: nat) {
    i == |s| || (i + 1 == |s| && s[i] == '\n')
  }

  predicate AllSpaces(s: string) {
    forall i :: 0 <= i < |s| ==> IsSpace(s[i])
  }

  // ---------------------------------------------------------------------
  // strip()

  function LStrip(s: string): (r: string)
    ensures |r| <= |s| && r == s[|s| - |r|..]
    ensures r == [] || !IsSpace(r[0])
    ensures AllSpaces(s[..|s| - |r|])
    ensures |s| > 0 && IsSpace(s[0]) ==> |r| < |s|
  {
    if |s| > 0 && IsSpace(s[0]) then
      var r := LStrip(s[1..]);
      SpacesCons(s, |s| - |r|);
      r
    else s
  }

  /** White space before `k` in `s[1..]`, after a leading space, is white
      space before `k` in `s`. */
  lemma SpacesCons(s: string, k: nat)
    requires 1 <= k <= |s| && IsSpace(s[0]) && AllSpaces(s[1..][..k - 1])
    ensures AllSpaces(s[..k])
  {
    assert s[..k] == [s[0]] + s[1..][..k - 1];
  }

  function RStrip(s: string): (r: string)
    ensures |r| <= |s| && r == s[..|r|]
    ensures r == [] || !IsSpace(r[|r| - 1])
    ensures AllSpaces(s[|r|..])
  {
    if |s| > 0 && IsSpace(s[|s| - 1]) then
      var r := RStrip(s[..|s| - 1]);
      SpacesSnoc(s[..|s| - 1], |r|, s[|s| - 1]);
      assert s[..|s| - 1] + [s[|s| - 1]] == s;
      r
    else s
  }

  /** White space after `k` stays white space when a space is added. */
  lemma SpacesSnoc(s: string, k: nat, c: char)
    requires k <= |s| && AllSpaces(s[k..]) && IsSpace(c)
    ensures AllSpaces((s + [c])[k..])
  {
    assert (s + [c])[k..] == s[k..] + [c];
  }

  /** str.strip() */
  function Strip(s: string): string {
    RStrip(LStrip(s))
  }

  predicate Trimmed(s: string) {
    s == [] || (!IsSpace(s[0]) && !IsSpace(s[|s| - 1]))
  }

  lemma LStripOfTrimmed(s: string)
    requires s == [] || !IsSpace(s[0])
    ensures LStrip(s) == s
  {
  }

  lemma RStripOfTrimmed(s: string)
    requires s == [] || !IsSpace(s[|s| - 1])
    ensures RStrip(s) == s
  {
  }

  /** The stripped text is a slice of the input with only whitespace cut
      away on both sides, and it is trimmed. */
  lemma StripIsTrimmedSlice(s: string)
    ensures Trimmed(Strip(s))
    ensures exists i :: 0 <= i <= |s| - |Strip(s)| && Strip(s) == s[i..i + |Strip(s)|]
              && AllSpaces(s[..i]) && AllSpaces(s[i + |Strip(s)|..])
  {
    var i := StripSlice(s, Strip(s));
    StripTrimmed(s);
  }

  /** Where the stripped text `t` sits in the input. */
  lemma StripSlice(s: string, t: string) returns (i: nat)
    requires t == Strip(s)
    ensures i + |t| <= |s| && t == s[i..i + |t|]
    ensures AllSpaces(s[..i]) && AllSpaces(s[i + |t|..])
  {
    var l := LStrip(s);
    i := |s| - |l|;
    SliceOfSuffix(s, l, t, i);
  }

  /** A prefix `r` of the suffix `l` of `s` that starts at `i`, with only
      white space around it. */
  lemma SliceOfSuffix(s: string, l: string, r: string, i: nat)
    requires i <= |s| && l == s[i..] && |r| <= |l| && r == l[..|r|]
    requires AllSpaces(s[..i]) && AllSpaces(l[|r|..])
    ensures i + |r| <= |s| && r == s[i..i + |r|]
    ensures AllSpaces(s[..i]) && AllSpaces(s[i + |r|..])
  {
    assert s[i + |r|..] == l[|r|..];
  }

  lemma StripTrimmed(s: string)
    ensures Trimmed(Strip(s))
  {
    var l := LStrip(s);
    var r := RStrip(l);
    if r != [] {
      assert r[0] == l[0];
    }
  }

  lemma StripIdempotent(s: string)
    ensures Strip(Strip(s)) == Strip(s)
  {
    StripIsTrimmedSlice(s);
    var t := Strip(s);
    LStripOfTrimmed(t);
    RStripOfTrimmed(t);
  }

  lemma StripOfTrimmed(s: string)
    requires Trimmed(s)
    ensures Strip(s) == s
  {
    LStripOfTrimmed(s);
    RStripOfTrimmed(s);
  }

  // ---------------------------------------------------------------------
  // re.sub(r'\s+', ' ', s)

  /** Replaces every maximal run of whitespace by one plain space. */
  function Squeeze(s: string): string
    decreases |s|
  {
    if s == [] then []
    else if IsSpace(s[0]) then [' '] + Squeeze(LStrip(s))
    else [s[0]] + Squeeze(s[1..])
  }

  /** No two whitespace characters are adjacent. */
  predicate NoDoubleSpace(s: string) {
    forall i :: 0 <= i < |s| - 1 ==> !(IsSpace(s[i]) && IsSpace(s[i + 1]))
  }

  /** The only whitespace character that occurs is the plain space. */
  predicate PlainSpaces(s: string) {
    forall i :: 0 <= i < |s| ==> IsSpace(s[i]) ==> s[i] == ' '
  }

  /** The normal form of a whitespace-collapsed text. */
  predicate Collapsed(s: string) {
    Trimmed(s) && NoDoubleSpace(s) && PlainSpaces(s)
  }

  lemma SqueezeHead(s: string)
    requires s != []
    ensures Squeeze(s) != []
    ensures IsSpace(s[0]) ==> Squeeze(s)[0] == ' '
    ensures !IsSpace(s[0]) ==> Squeeze(s)[0] == s[0]
  {
  }

  lemma {:induction false} SqueezeShape(s: string)
    ensures NoDoubleSpace(Squeeze(s)) && PlainSpaces(Squeeze(s))
    ensures |Squeeze(s)| <= |s|
    decreases |s|
  {
    if s == [] {
    } else if IsSpace(s[0]) {
      var t := LStrip(s);
      SqueezeShape(t);
      if t != [] {
        SqueezeHead(t);
      }
    } else {
      SqueezeShape(s[1..]);
      if |s| > 1 {
        SqueezeHead(s[1..]);
      }
    }
  }

  lemma {:induction false} SqueezeLast(s: string)
    requires s != [] && !IsSpace(s[|s| - 1])
    ensures Squeeze(s) != [] && !IsSpace(Squeeze(s)[|Squeeze(s)| - 1])
    decreases |s|
  {
    var q := Squeeze(s);
    if IsSpace(s[0]) {
      var t := LStrip(s);
      assert t != [] && t[|t| - 1] == s[|s| - 1];
      SqueezeLast(t);
      SqueezeSpaceCons(s);
      assert q[|q| - 1] == Squeeze(t)[|Squeeze(t)| - 1];
    } else if |s| > 1 {
      var rest := s[1..];
      assert rest[|rest| - 1] == s[|s| - 1];
      SqueezeLast(rest);
      assert q == [s[0]] + Squeeze(rest);
      assert q[|q| - 1] == Squeeze(rest)[|Squeeze(rest)| - 1];
    } else {
      assert q == [s[0]] + Squeeze([]);
    }
  }

  /** A text already in collapsed shape is left alone by the squeeze. */
  lemma {:induction false} SqueezeFixpoint(s: string)
    requires NoDoubleSpace(s) && PlainSpaces(s)
    ensures Squeeze(s) == s
    decreases |s|
  {
    if s == [] {
    } else {
      var rest := s[1..];
      SpacingOfTail(s);
      SqueezeFixpoint(rest);
      if IsSpace(s[0]) {
        assert |s| == 1 || !IsSpace(s[1]);
        LStripOneSpace(s);
        assert Squeeze(s) == [' '] + Squeeze(rest);
      } else {
        assert Squeeze(s) == [s[0]] + Squeeze(rest);
      }
    }
  }

  lemma SpacingOfTail(s: string)
    requires s != [] && NoDoubleSpace(s) && PlainSpaces(s)
    ensures NoDoubleSpace(s[1..]) && PlainSpaces(s[1..])
    ensures IsSpace(s[0]) ==> s[0] == ' ' && (|s| == 1 || !IsSpace(s[1]))
  {
    var rest := s[1..];
    assert forall i :: 0 <= i < |rest| ==> rest[i] == s[i + 1];
  }

  lemma LStripOneSpace(s: string)
    requires s != [] && IsSpace(s[0]) && (|s| == 1 || !IsSpace(s[1]))
    ensures LStrip(s) == s[1..]
  {
    LStripOfTrimmed(s[1..]);
  }

  /** Collapse whitespace the way most variants do: strip, then squeeze. */
  function CollapseWhitespace(s: string): (r: string)
    ensures Collapsed(r)
  {
    StripTrimmed(s);
    SqueezeOfTrimmed(Strip(s));
    Squeeze(Strip(s))
  }

  lemma SqueezeOfTrimmed(t: string)
    requires Trimmed(t)
    ensures Collapsed(Squeeze(t))
  {
    var q := Squeeze(t);
    SqueezeShape(t);
    if t != [] {
      SqueezeHead(t);
      SqueezeLast(t);
      assert !IsSpace(q[0]) && !IsSpace(q[|q| - 1]);
    }
  }

  /** Collapsing whitespace keeps a property of every character when the
      plain space has it too. */
  lemma CollapseKeeps(s: string, p: char -> bool)
    requires p(' ') && forall i :: 0 <= i < |s| ==> p(s[i])
    ensures forall i :: 0 <= i < |CollapseWhitespace(s)| ==> p(CollapseWhitespace(s)[i])
  {
    StripIsTrimmedSlice(s);
    SqueezeKeeps(Strip(s), p);
  }

  /** Squeezing only inserts plain spaces. */
  lemma {:induction false} SqueezeKeeps(s: string, p: char -> bool)
    requires p(' ') && forall i :: 0 <= i < |s| ==> p(s[i])
    ensures forall i :: 0 <= i < |Squeeze(s)| ==> p(Squeeze(s)[i])
    decreases |s|
  {
    if s != [] {
      if IsSpace(s[0]) {
        var l := LStrip(s);
        assert forall i :: 0 <= i < |l| ==> l[i] == s[|s| - |l| + i];
        SqueezeKeeps(l, p);
      } else {
        assert forall i :: 0 <= i < |s| - 1 ==> s[1..][i] == s[i + 1];
        SqueezeKeeps(s[1..], p);
      }
    }
  }

  lemma CollapsedFixpoint(s: string)
    requires Collapsed(s)
    ensures CollapseWhitespace(s) == s
  {
    StripOfTrimmed(s);
    SqueezeFixpoint(s);
  }

  /** Collapsing whitespace twice is the same as collapsing it once. */
  lemma CollapseIdempotent(s: string)
    ensures CollapseWhitespace(CollapseWhitespace(s)) == CollapseWhitespace(s)
  {
    CollapsedFixpoint(CollapseWhitespace(s));
  }

  // Squeezing before or after stripping gives the same text.

  lemma {:induction false} RStripCons(c: char, x: string)
    requires !IsSpace(c) || !AllSpaces(x)
    ensures RStrip([c] + x) == [c] + RStrip(x)
    decreases |x|
  {
    var cx := [c] + x;
    if x == [] {
      assert cx == [c];
    } else if IsSpace(x[|x| - 1]) {
      var y := x[..|x| - 1];
      assert cx[|cx| - 1] == x[|x| - 1];
      assert cx[..|cx| - 1] == [c] + y;
      assert RStrip(cx) == RStrip([c] + y);
      assert RStrip(x) == RStrip(y);
      assert !IsSpace(c) || !AllSpaces(y) by {
        if AllSpaces(y) {
          assert forall i :: 0 <= i < |x| ==> x[i] == if i < |y| then y[i] else x[|x| - 1];
        }
      }
      RStripCons(c, y);
    } else {
      assert cx[|cx| - 1] == x[|x| - 1];
    }
  }

  lemma RStripAllSpaces(x: string)
    requires AllSpaces(x)
    ensures RStrip(x) == []
  {
  }

  lemma {:induction false} LStripRStrip(s: string)
    ensures LStrip(RStrip(s)) == RStrip(LStrip(s))
    decreases |s|
  {
    if s == [] {
    } else if IsSpace(s[0]) {
      var l := LStrip(s);
      assert l == LStrip(s[1..]);
      if AllSpaces(s) {
        RStripAllSpaces(s);
        assert l == [];
      } else {
        var t := s[1..];
        assert !AllSpaces(t);
        assert s == [s[0]] + t;
        RStripCons(s[0], t);
        var rt := RStrip(t);
        assert RStrip(s) == [s[0]] + rt;
        assert ([s[0]] + rt)[1..] == rt;
        assert LStrip(RStrip(s)) == LStrip(rt);
        LStripRStrip(t);
      }
    } else {
      var t := s[1..];
      assert s == [s[0]] + t;
      RStripCons(s[0], t);
      assert RStrip(s)[0] == s[0];
      assert LStrip(RStrip(s)) == RStrip(s);
      assert LStrip(s) == s;
    }
  }

  lemma SqueezeSpaceHead(t: string)
    requires t != [] && IsSpace(t[0]) && LStrip(t) != []
    ensures RStrip(Squeeze(t)) == [' '] + RStrip(Squeeze(LStrip(t)))
  {
    var l := LStrip(t);
    var q := Squeeze(l);
    assert Squeeze(t) == [' '] + q;
    SqueezeHead(l);
    assert !AllSpaces(q) by { assert !IsSpace(q[0]); }
    RStripCons(' ', q);
  }

  lemma RStripSpaceHead(t: string)
    requires t != [] && IsSpace(t[0]) && LStrip(t) != []
    ensures Squeeze(RStrip(t)) == [' '] + Squeeze(RStrip(LStrip(t)))
  {
    KeepsHead(t);
    var rt := RStrip(t);
    SqueezeSpaceCons(rt);
    LStripRStrip(t);
  }

  /** Stripping the right of a text that is not all whitespace keeps its
      first character. */
  lemma KeepsHead(t: string)
    requires t != [] && LStrip(t) != []
    ensures RStrip(t) != [] && RStrip(t)[0] == t[0]
  {
    var rest := t[1..];
    NotAllSpaces(t);
    assert t == [t[0]] + rest;
    RStripCons(t[0], rest);
  }

  lemma NotAllSpaces(t: string)
    requires t != [] && LStrip(t) != []
    ensures !AllSpaces(t[1..]) || !IsSpace(t[0])
  {
    var l := LStrip(t);
    if IsSpace(t[0]) {
      var k := |t| - |l|;
      assert t[k] == l[0];
      assert t[1..][k - 1] == t[k];
    }
  }

  lemma SqueezeSpaceCons(x: string)
    requires x != [] && IsSpace(x[0])
    ensures Squeeze(x) == [' '] + Squeeze(LStrip(x))
  {
  }

  lemma CharHead(t: string)
    requires t != [] && !IsSpace(t[0])
    ensures RStrip(Squeeze(t)) == [t[0]] + RStrip(Squeeze(t[1..]))
    ensures Squeeze(RStrip(t)) == [t[0]] + Squeeze(RStrip(t[1..]))
  {
    var rest := t[1..];
    var q := Squeeze(rest);
    assert Squeeze(t) == [t[0]] + q;
    RStripCons(t[0], q);
    assert t == [t[0]] + rest;
    RStripCons(t[0], rest);
    var rr := RStrip(rest);
    assert ([t[0]] + rr)[1..] == rr;
    assert Squeeze([t[0]] + rr) == [t[0]] + Squeeze(rr);
  }

  /** A blank text squeezes to one space, which right-stripping removes. */
  lemma BlankSqueeze(t: string)
    requires t != [] && IsSpace(t[0]) && LStrip(t) == []
    ensures RStrip(Squeeze(t)) == [] && RStrip(t) == []
  {
    var l := LStrip(t);
    assert |l| == 0;
    assert t[..|t| - |l|] == t;
    assert AllSpaces(t);
    RStripAllSpaces(t);
    var q := Squeeze(t);
    assert Squeeze(l) == [];
    assert q == [' '] + Squeeze(l);
    assert q == [' '];
    SpaceRStrip();
  }

  /** Right-stripping a lone space leaves nothing. */
  lemma SpaceRStrip()
    ensures RStrip([' ']) == []
  {
    assert IsSpace(' ');
    RStripAllSpaces([' ']);
  }

  lemma {:induction false} RStripSqueeze(t: string)
    ensures RStrip(Squeeze(t)) == Squeeze(RStrip(t))
    decreases |t|
  {
    if t == [] {
    } else if IsSpace(t[0]) {
      var l := LStrip(t);
      if l == [] {
        BlankSqueeze(t);
      } else {
        SqueezeSpaceHead(t);
        RStripSpaceHead(t);
        RStripSqueeze(l);
      }
    } else {
      CharHead(t);
      RStripSqueeze(t[1..]);
    }
  }

  lemma {:induction false} LStripSqueeze(t: string)
    ensures LStrip(Squeeze(t)) == Squeeze(LStrip(t))
  {
    if t != [] && IsSpace(t[0]) {
      var l := LStrip(t);
      var q := Squeeze(l);
      if l != [] {
        SqueezeHead(l);
      }
      assert Squeeze(t) == [' '] + q;
      assert ([' '] + q)[1..] == q;
      assert LStrip(Squeeze(t)) == LStrip(q);
      LStripOfTrimmed(q);
    } else if t != [] {
      SqueezeHead(t);
      LStripOfTrimmed(Squeeze(t));
      LStripOfTrimmed(t);
    }
  }

  /** `re.sub(r'\s+', ' ', s).strip()` equals `re.sub(r'\s+', ' ', s.strip())`. */
  lemma {:induction false} StripSqueezeCommute(s: string)
    ensures Strip(Squeeze(s)) == CollapseWhitespace(s)
  {
    LStripSqueeze(s);
    RStripSqueeze(LStrip(s));
  }

  // ---------------------------------------------------------------------
  // split(), isupper(), istitle(), isnumeric()

  /** len(s.split()) */
  function WordCount(s: string): nat
    decreases |s|
  {
    if s == [] then 0
    else if IsSpace(s[0]) then WordCount(s[1..])
    else var n := RunFrom(s, 0, c => !IsSpace(c)); 1 + WordCount(s[n..])
  }

  predicate HasUpper(s: string) { exists i :: 0 <= i < |s| && IsUpper(s[i]) }
  predicate HasLower(s: string) { exists i :: 0 <= i < |s| && IsLower(s[i]) }

  /** str.isupper(): at least one cased character and none in lower case. */
  predicate IsUpperStr(s: string) { HasUpper(s) && !HasLower(s) }

  /** str.istitle(): every upper-case letter follows an uncased character,
      every lower-case letter follows a cased one, and some letter occurs. */
  predicate IsTitleStr(s: string) { TitleFrom(s, false, false) }

  predicate TitleFrom(s: string, previousCased: bool, cased: bool)
    decreases |s|
  {
    if s == [] then cased
    else if IsUpper(s[0]) then !previousCased && TitleFrom(s[1..], true, true)
    else if IsLower(s[0]) then previousCased && TitleFrom(s[1..], true, true)
    else TitleFrom(s[1..], false, cased)
  }

  /** str.isnumeric() */
  predicate IsNumericStr(s: string) {
    |s| > 0 && forall i :: 0 <= i < |s| ==> IsDigit(s[i])
  }

  predicate AllDigits(s: string) {
    forall i :: 0 <= i < |s| ==> IsDigit(s[i])
  }

  // ---------------------------------------------------------------------
  // re.sub(r'[.]{3,}', '...', s)

  /** Length of the piece CollapseDots handles in one step: a whole run of
      dots, or one other character. */
  function ChunkLength(s: string): (n: nat)
    requires s != []
    ensures 0 < n <= |s|
  {
    if s[0] == '.' then RunFrom(s, 0, IsDot) else 1
  }

  function Chunk(s: string): string
    requires s != []
  {
    var n := ChunkLength(s);
    if s[0] == '.' && n >= 3 then "..." else s[..n]
  }

  /** Every run of three or more dots becomes exactly three dots. */
  function CollapseDots(s: string): string
    decreases |s|
  {
    if s == [] then [] else Chunk(s) + CollapseDots(s[ChunkLength(s)..])
  }

  predicate NoFourDots(s: string) {
    forall i :: 0 <= i < |s| - 3 ==> !(s[i] == '.' && s[i + 1] == '.' && s[i + 2] == '.' && s[i + 3] == '.')
  }

  lemma ChunkShape(s: string)
    requires s != []
    ensures Chunk(s) != [] && Chunk(s)[0] == s[0]
    ensures s[0] == '.' ==> |Chunk(s)| <= 3 && forall i :: 0 <= i < |Chunk(s)| ==> Chunk(s)[i] == '.'
    ensures s[0] == '.' ==> ChunkLength(s) == |s| || s[ChunkLength(s)] != '.'
    ensures s[0] != '.' ==> Chunk(s) == [s[0]]
    ensures s[0] == '.' && ChunkLength(s) < 3 ==> Chunk(s) == s[..ChunkLength(s)]
  {
  }

  lemma {:induction false} CollapseDotsEnds(s: string)
    requires s != []
    ensures CollapseDots(s) != [] && CollapseDots(s)[0] == s[0]
    ensures CollapseDots(s)[|CollapseDots(s)| - 1] == s[|s| - 1]
    decreases |s|
  {
    ChunkShape(s);
    var n := ChunkLength(s);
    if n < |s| {
      CollapseDotsEnds(s[n..]);
    } else {
      assert CollapseDots(s) == Chunk(s);
      assert s[0] == '.' ==> forall i :: 0 <= i < |s| ==> s[i] == '.';
    }
  }

  lemma NoFourDotsConcat(a: string, b: string)
    requires NoFourDots(b) && a != []
    requires (|a| == 1 && a[0] != '.') || ((forall i :: 0 <= i < |a| ==> a[i] == '.') && |a| <= 3 && (b == [] || b[0] != '.'))
    ensures NoFourDots(a + b)
  {
    var s := a + b;
    forall i | 0 <= i < |s| - 3
      ensures !(s[i] == '.' && s[i + 1] == '.' && s[i + 2] == '.' && s[i + 3] == '.')
    {
      if i >= |a| {
        assert s[i] == b[i - |a|] && s[i + 1] == b[i - |a| + 1] && s[i + 2] == b[i - |a| + 2] && s[i + 3] == b[i - |a| + 3];
      } else if a[0] != '.' && |a| == 1 {
        assert s[i] == a[0];
      } else {
        assert s[|a|] == b[0];
      }
    }
  }

  lemma ShapeConcat(a: string, b: string)
    requires NoDoubleSpace(a) && NoDoubleSpace(b) && PlainSpaces(a) && PlainSpaces(b)
    requires a == [] || b == [] || !(IsSpace(a[|a| - 1]) && IsSpace(b[0]))
    ensures NoDoubleSpace(a + b) && PlainSpaces(a + b)
  {
    var s := a + b;
    forall i | 0 <= i < |s| - 1 ensures !(IsSpace(s[i]) && IsSpace(s[i + 1])) {
      if i + 1 < |a| {
        assert s[i] == a[i] && s[i + 1] == a[i + 1];
      } else if i >= |a| {
        assert s[i] == b[i - |a|] && s[i + 1] == b[i - |a| + 1];
      }
    }
  }

  /** Collapsing dots leaves no run of four dots and keeps the whitespace
      shape of its input. */
  lemma {:induction false} CollapseDotsShape(s: string)
    ensures NoFourDots(CollapseDots(s))
    ensures NoDoubleSpace(s) && PlainSpaces(s) ==> NoDoubleSpace(CollapseDots(s)) && PlainSpaces(CollapseDots(s))
    decreases |s|
  {
    if s != [] {
      var n := ChunkLength(s);
      var rest := s[n..];
      var c := Chunk(s);
      ChunkShape(s);
      CollapseDotsShape(rest);
      if rest != [] {
        CollapseDotsEnds(rest);
      }
      NoFourDotsConcat(c, CollapseDots(rest));
      if NoDoubleSpace(s) && PlainSpaces(s) {
        assert NoDoubleSpace(rest) && PlainSpaces(rest) by {
          forall i | 0 <= i < |rest| - 1 ensures !(IsSpace(rest[i]) && IsSpace(rest[i + 1])) {
            assert rest[i] == s[n + i] && rest[i + 1] == s[n + i + 1];
          }
          forall i | 0 <= i < |rest| ensures IsSpace(rest[i]) ==> rest[i] == ' ' {
            assert rest[i] == s[n + i];
          }
        }
        if rest != [] && s[0] != '.' {
          assert s[1] == rest[0];
        }
        ShapeConcat(c, CollapseDots(rest));
      }
    }
  }

  lemma NoFourDotsSuffix(s: string, n: nat)
    requires n <= |s| && NoFourDots(s)
    ensures NoFourDots(s[n..])
  {
    var t := s[n..];
    forall i | 0 <= i < |t| - 3
      ensures !(t[i] == '.' && t[i + 1] == '.' && t[i + 2] == '.' && t[i + 3] == '.')
    {
      assert t[i] == s[n + i] && t[i + 1] == s[n + i + 1] && t[i + 2] == s[n + i + 2] && t[i + 3] == s[n + i + 3];
    }
  }

  /** Without four dots in a row, a chunk is copied unchanged. */
  lemma ChunkFixpoint(s: string)
    requires s != [] && NoFourDots(s)
    ensures Chunk(s) == s[..ChunkLength(s)]
  {
    var n := ChunkLength(s);
    if s[0] == '.' && n >= 3 {
      if |s| >= 4 {
        assert !(s[0] == '.' && s[1] == '.' && s[2] == '.' && s[3] == '.');
      }
      assert n == 3;
      assert s[..3] == "...";
    }
  }

  /** A text without four dots in a row is left alone. */
  lemma {:induction false} CollapseDotsFixpoint(s: string)
    requires NoFourDots(s)
    ensures CollapseDots(s) == s
    decreases |s|
  {
    if s != [] {
      var n := ChunkLength(s);
      ChunkFixpoint(s);
      NoFourDotsSuffix(s, n);
      CollapseDotsFixpoint(s[n..]);
      SplitRejoins(s, n, Chunk(s), CollapseDots(s[n..]));
    }
  }

  lemma SplitRejoins(s: string, n: nat, a: string, b: string)
    requires n <= |s| && a == s[..n] && b == s[n..]
    ensures a + b == s
  {
    assert s[..n] + s[n..] == s;
  }

  // ---------------------------------------------------------------------
  // Decimal numerals, used to state what the page-number tests accept.

  function DigitChar(d: nat): (c: char)
    requires d < 10
    ensures IsDigit(c)
  {
    (48 + d) as char
  }

  /** str(n) */
  function NatToString(n: nat): (r: string)
    ensures |r| > 0 && AllDigits(r)
    ensures n < 10 ==> |r| == 1
    ensures 10 <= n ==> |r| == |NatToString(n / 10)| + 1
  {
    if n < 10 then [DigitChar(n)] else NatToString(n / 10) + [DigitChar(n % 10)]
  }

  function Pow10(k: nat): nat {
    if k == 0 then 1 else 10 * Pow10(k - 1)
  }

  /** A number below 10^k (k >= 1) has at most k decimal digits. */
  lemma {:induction false} NatToStringLength(n: nat, k: nat)
    requires 1 <= k && n < Pow10(k)
    ensures |NatToString(n)| <= k
  {
    if n >= 10 {
      assert Pow10(1) == 10;
      assert k >= 2;
      assert n / 10 < Pow10(k - 1);
      NatToStringLength(n / 10, k - 1);
    }
  }

  /** A number of at least 10^k has more than k decimal digits. */
  lemma {:induction false} NatToStringLengthBelow(n: nat, k: nat)
    requires Pow10(k) <= n
    ensures |NatToString(n)| > k
  {
    if k > 0 {
      assert n >= 10 by { PowPositive(k - 1); }
      assert Pow10(k - 1) <= n / 10;
      NatToStringLengthBelow(n / 10, k - 1);
    }
  }

  lemma {:induction false} PowPositive(k: nat)
    ensures Pow10(k) >= 1
  {
    if k > 0 { PowPositive(k - 1); }
  }

  // ---------------------------------------------------------------------
  // Small facts the pattern predicates rely on.

  /** `p` occurs in `s` at position `i`. */
  predicate StartsAt(s: string, i: nat, p: string) {
    i + |p| <= |s| && s[i..i + |p|] == p
  }

  /** A run that is known to stop at `j` has length `j - i`. */
  lemma {:induction false} RunFromExact(s: string, i: nat, j: nat, p: char -> bool)
    requires i <= j <= |s|
    requires forall k :: i <= k < j ==> p(s[k])
    requires j == |s| || !p(s[j])
    ensures RunFrom(s, i, p) == j - i
    decreases j - i
  {
    if i < j { RunFromExact(s, i + 1, j, p); }
  }

  /** Every character inside a run satisfies the run's test. */
  lemma InRun(s: string, i: nat, k: nat, p: char -> bool)
    requires i <= |s| && i <= k < i + RunFrom(s, i, p)
    ensures p(s[k])
  {
  }

  /** A run starting at or before a character that fails `p` ends there
      at the latest. */
  lemma RunStopsBefore(s: string, i: nat, k: nat, p: char -> bool)
    requires i <= |s| && k < |s| && !p(s[k])
    ensures i <= k ==> i + RunFrom(s, i, p) <= k
  {
  }

  /** A run inside the second part of a concatenation does not see the
      first part. */
  lemma {:induction false} RunFromShift(a: string, u: string, i: nat, p: char -> bool)
    requires i <= |u|
    ensures RunFrom(a + u, |a| + i, p) == RunFrom(u, i, p)
    decreases |u| - i
  {
    if i < |u| {
      assert (a + u)[|a| + i] == u[i];
      if p(u[i]) {
        RunFromShift(a, u, i + 1, p);
      }
    }
  }

  /** A digit run that starts a text stops where the digits do. */
  lemma LeadingDigits(a: string, u: string)
    requires AllDigits(a) && u != [] && !IsDigit(u[0])
    ensures RunFrom(a + u, 0, IsDigit) == |a|
  {
    var t := a + u;
    assert forall i :: 0 <= i < |a| ==> t[i] == a[i];
    assert t[|a|] == u[0];
    RunFromExact(t, 0, |a|, IsDigit);
  }

  /** Stripping trailing whitespace keeps a prefix that ends in a visible
      character. */
  lemma RStripKeepsPrefix(p: string, rest: string)
    requires p != [] && !IsSpace(p[|p| - 1])
    ensures StartsWith(RStrip(p + rest), p)
  {
    var s := p + rest;
    var r := RStrip(s);
    assert s[|p| - 1] == p[|p| - 1];
    assert r[..|p|] == s[..|p|] == p;
  }

  /** A text that starts with a visible character keeps its first
      characters through strip(). */
  lemma StripKeepsPrefix(p: string, rest: string)
    requires p != [] && !IsSpace(p[0]) && !IsSpace(p[|p| - 1])
    ensures StartsWith(Strip(p + rest), p)
  {
    assert (p + rest)[0] == p[0];
    LStripOfTrimmed(p + rest);
    RStripKeepsPrefix(p, rest);
  }

  lemma LowerConcat(a: string, b: string)
    ensures Lower(a + b) == Lower(a) + Lower(b)
  {
    var l := Lower(a + b);
    assert forall i :: 0 <= i < |a| ==> l[i] == (Lower(a) + Lower(b))[i];
    assert forall i :: |a| <= i < |a| + |b| ==> l[i] == (Lower(a) + Lower(b))[i];
  }

  lemma LowerNoUpper(s: string)
    requires forall i :: 0 <= i < |s| ==> !IsUpper(s[i])
    ensures Lower(s) == s
  {
  }

  lemma LowerPrefix(s: string, p: string)
    requires StartsWith(s, p)
    ensures StartsWith(Lower(s), Lower(p))
  {
    assert Lower(s)[..|p|] == Lower(p);
  }
}
