// detect_language_script: every character is classified by a ladder of
// code-point ranges (the first range that contains it wins), a counter per
// script is incremented, and the script with the largest count is
// returned, ties going to the script listed first in the counter dict.
// The ladders differ per variant and live in the variant modules.

module Scripts {
  import opened Common

  datatype Script =
    | Latin | Cjk | Arabic | Cyrillic | Devanagari | Thai | Hebrew | Greek
    | Georgian | Armenian | Tamil | Telugu | Kannada | Malayalam | Bengali
    | Gurmukhi | Gujarati | Oriya | Sinhala | Myanmar | Khmer | Lao
    | Tibetan | Mongolian | Ethiopic

  /** The 25 counter keys of 1A/main.py and 1A/main4.py, in dict order. */
  const AllScripts: seq<Script> := [
    Latin, Cjk, Arabic, Cyrillic, Devanagari, Thai, Hebrew, Greek,
    Georgian, Armenian, Tamil, Telugu, Kannada, Malayalam, Bengali,
    Gurmukhi, Gujarati, Oriya, Sinhala, Myanmar, Khmer, Lao,
    Tibetan, Mongolian, Ethiopic]

  /** Every script has a counter in the 25-key dict. */
  lemma ListedScript(sc: Script)
    ensures sc in AllScripts
  {
    match sc
    case Latin => assert AllScripts[0] == Latin;
    case Cjk => assert AllScripts[1] == Cjk;
    case Arabic => assert AllScripts[2] == Arabic;
    case Cyrillic => assert AllScripts[3] == Cyrillic;
    case Devanagari => assert AllScripts[4] == Devanagari;
    case Thai => assert AllScripts[5] == Thai;
    case Hebrew => assert AllScripts[6] == Hebrew;
    case Greek => assert AllScripts[7] == Greek;
    case Georgian => assert AllScripts[8] == Georgian;
    case Armenian => assert AllScripts[9] == Armenian;
    case Tamil => assert AllScripts[10] == Tamil;
    case Telugu => assert AllScripts[11] == Telugu;
    case Kannada => assert AllScripts[12] == Kannada;
    case Malayalam => assert AllScripts[13] == Malayalam;
    case Bengali => assert AllScripts[14] == Bengali;
    case Gurmukhi => assert AllScripts[15] == Gurmukhi;
    case Gujarati => assert AllScripts[16] == Gujarati;
    case Oriya => assert AllScripts[17] == Oriya;
    case Sinhala => assert AllScripts[18] == Sinhala;
    case Myanmar => assert AllScripts[19] == Myanmar;
    case Khmer => assert AllScripts[20] == Khmer;
    case Lao => assert AllScripts[21] == Lao;
    case Tibetan => assert AllScripts[22] == Tibetan;
    case Mongolian => assert AllScripts[23] == Mongolian;
    case Ethiopic => assert AllScripts[24] == Ethiopic;
  }

  /** The four counter keys of 1A/main3.py. */
  const CoreScripts: seq<Script> := [Latin, Cjk, Arabic, Cyrillic]

  /** Number of characters of `text` the ladder assigns to `sc`. */
  function CountOf(text: string, ladder: char -> Option<Script>, sc: Script): (n: nat)
    ensures n <= |text|
  {
    if text == [] then 0
    else CountOf(text[..|text| - 1], ladder, sc) + (if ladder(text[|text| - 1]) == Some(sc) then 1 else 0)
  }

  /** `max(keys, key=count)`, scanning from position i with the best key so
      far at position b: a later key replaces it only when strictly larger. */
  function ArgMaxFrom(keys: seq<Script>, count: Script -> nat, i: nat, b: nat): (k: nat)
    requires b < i <= |keys|
    ensures b <= k < |keys|
    decreases |keys| - i
  {
    if i == |keys| then b
    else if count(keys[i]) > count(keys[b]) then ArgMaxFrom(keys, count, i + 1, i)
    else ArgMaxFrom(keys, count, i + 1, b)
  }

  function ArgMax(keys: seq<Script>, count: Script -> nat): (k: nat)
    requires keys != []
    ensures k < |keys|
  {
    ArgMaxFrom(keys, count, 1, 0)
  }

  function Detect(text: string, ladder: char -> Option<Script>, keys: seq<Script>): Script
    requires keys != []
  {
    keys[ArgMax(keys, sc => CountOf(text, ladder, sc))]
  }

  lemma {:induction false} ArgMaxFromIsFirstMax(keys: seq<Script>, count: Script -> nat, i: nat, b: nat)
    requires b < i <= |keys|
    requires forall j :: 0 <= j < i ==> count(keys[j]) <= count(keys[b])
    requires forall j :: 0 <= j < b ==> count(keys[j]) < count(keys[b])
    ensures var k := ArgMaxFrom(keys, count, i, b);
      (forall j :: 0 <= j < |keys| ==> count(keys[j]) <= count(keys[k])) &&
      (forall j :: 0 <= j < k ==> count(keys[j]) < count(keys[k]))
    decreases |keys| - i
  {
    if i < |keys| {
      if count(keys[i]) > count(keys[b]) {
        ArgMaxFromIsFirstMax(keys, count, i + 1, i);
      } else {
        ArgMaxFromIsFirstMax(keys, count, i + 1, b);
      }
    }
  }

  /** The detected script has the largest count, and every script listed
      before it has a strictly smaller one. */
  lemma DetectIsFirstMax(text: string, ladder: char -> Option<Script>, keys: seq<Script>)
    requires keys != []
    ensures var k := ArgMax(keys, sc => CountOf(text, ladder, sc));
      Detect(text, ladder, keys) == keys[k] &&
      (forall j :: 0 <= j < |keys| ==> CountOf(text, ladder, keys[j]) <= CountOf(text, ladder, keys[k])) &&
      (forall j :: 0 <= j < k ==> CountOf(text, ladder, keys[j]) < CountOf(text, ladder, keys[k]))
  {
    ArgMaxFromIsFirstMax(keys, sc => CountOf(text, ladder, sc), 1, 0);
  }

  /** The first key wins unless some character was counted for the
      detected script; in particular empty text gives the first key. */
  lemma DetectCounted(text: string, ladder: char -> Option<Script>, keys: seq<Script>)
    requires keys != []
    ensures var r := Detect(text, ladder, keys);
      r == keys[0] || exists i :: 0 <= i < |text| && ladder(text[i]) == Some(r)
  {
    var r := Detect(text, ladder, keys);
    DetectIsFirstMax(text, ladder, keys);
    if r != keys[0] {
      CountedSomewhere(text, ladder, r);
    }
  }

  lemma {:induction false} CountedSomewhere(text: string, ladder: char -> Option<Script>, sc: Script)
    requires CountOf(text, ladder, sc) > 0
    ensures exists i :: 0 <= i < |text| && ladder(text[i]) == Some(sc)
  {
    var init := text[..|text| - 1];
    if ladder(text[|text| - 1]) != Some(sc) {
      CountedSomewhere(init, ladder, sc);
      var i :| 0 <= i < |init| && ladder(init[i]) == Some(sc);
      assert text[i] == init[i];
    }
  }

  /** A non-empty text whose every character is counted for `sc` is
      detected as `sc`. */
  lemma DetectUniform(text: string, ladder: char -> Option<Script>, keys: seq<Script>, sc: Script)
    requires keys != [] && sc in keys && text != []
    requires forall i :: 0 <= i < |text| ==> ladder(text[i]) == Some(sc)
    ensures Detect(text, ladder, keys) == sc
  {
    CountAll(text, ladder, sc);
    DetectIsFirstMax(text, ladder, keys);
    var r := Detect(text, ladder, keys);
    var j :| 0 <= j < |keys| && keys[j] == sc;
    assert CountOf(text, ladder, keys[j]) == |text|;
    if r != sc {
      CountNone(text, ladder, sc, r);
    }
  }

  lemma {:induction false} CountAll(text: string, ladder: char -> Option<Script>, sc: Script)
    requires forall i :: 0 <= i < |text| ==> ladder(text[i]) == Some(sc)
    ensures CountOf(text, ladder, sc) == |text|
    decreases |text|
  {
    if text != [] {
      CountAll(text[..|text| - 1], ladder, sc);
    }
  }

  lemma {:induction false} CountNone(text: string, ladder: char -> Option<Script>, sc: Script, other: Script)
    requires sc != other
    requires forall i :: 0 <= i < |text| ==> ladder(text[i]) == Some(sc)
    ensures CountOf(text, ladder, other) == 0
    decreases |text|
  {
    if text != [] {
      CountNone(text[..|text| - 1], ladder, sc, other);
    }
  }

  /** The counting loop and the `max` over the counter dict. */
  method DetectLanguageScript(text: string, ladder: char -> Option<Script>, keys: seq<Script>) returns (script: Script)
    requires keys != []
    requires forall c :: ladder(c).Some? ==> ladder(c).value in keys
    ensures script == Detect(text, ladder, keys)
  {
    var counts: map<Script, nat> := map sc | sc in keys :: 0;
    for i := 0 to |text|
      invariant forall sc :: sc in keys ==> sc in counts && counts[sc] == CountOf(text[..i], ladder, sc)
    {
      assert text[..i + 1][..i] == text[..i];
      var s := ladder(text[i]);
      if s.Some? {
        counts := counts[s.value := counts[s.value] + 1];
      }
    }
    assert text[..|text|] == text;
    var b := 0;
    for i := 1 to |keys|
      invariant b < i
      invariant ArgMaxFrom(keys, sc => CountOf(text, ladder, sc), i, b) == ArgMax(keys, sc => CountOf(text, ladder, sc))
    {
      if counts[keys[i]] > counts[keys[b]] {
        b := i;
      }
    }
    script := keys[b];
  }
}
