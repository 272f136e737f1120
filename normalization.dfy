/** Turkish-aware normalisation of city names (utils.normalize_turkish_text):
    lower-case, replace the Turkish letters by their ASCII base letters, then
    decompose (NFD) and drop the combining marks.

    Python's `str.lower`, `str.upper` and `unicodedata.normalize('NFD', ...)`
    are modelled over a bounded alphabet: ASCII, the Latin-1 letters, the
    Turkish letters ğ ş ı İ in both cases and the combining marks
    U+0300..U+036F (the Unicode block of general category Mn). Every other
    character is left unchanged by all three. */
module Normalization {

  const COMBINING_DOT_ABOVE: char := '\U{0307}'

  /** The replacement table, in its insertion order. */
  const REPLACEMENTS: seq<(char, char)> :=
    [('ğ', 'g'), ('ü', 'u'), ('ş', 's'), ('ı', 'i'), ('ö', 'o'), ('ç', 'c'), ('â', 'a'), ('î', 'i'), ('û', 'u')]

  /** The letters the table replaces. */
  const TURKISH_LETTERS: string := "ğüşıöçâîû"

  /** A combining diacritical mark (U+0300..U+036F, all of category Mn). */
  predicate IsMark(c: char) { '\U{0300}' <= c <= '\U{036F}' }

  predicate IsAsciiUpper(c: char) { 'A' <= c <= 'Z' }

  predicate IsAsciiLower(c: char) { 'a' <= c <= 'z' }

  /** Latin-1 capitals whose lower case lies 32 code points above (not ×). */
  predicate IsLatin1Upper(c: char) { 'À' <= c <= 'Þ' && c != '×' }

  /** Latin-1 small letters whose upper case lies 32 code points below (not ÷). */
  predicate IsLatin1Lower(c: char) { 'à' <= c <= 'þ' && c != '÷' }

  /** `c.lower()`; the dotted capital İ lowers to i followed by U+0307. */
  function LowerChar(c: char): string {
    if IsAsciiUpper(c) || IsLatin1Upper(c) then [(c as int + 32) as char]
    else if c == 'Ğ' then "ğ"
    else if c == 'Ş' then "ş"
    else if c == 'İ' then ['i', COMBINING_DOT_ABOVE]
    else [c]
  }

  /** `s.lower()`. */
  function Lowered(s: string): string {
    if s == [] then [] else LowerChar(s[0]) + Lowered(s[1..])
  }

  /** `c.upper()` on the characters `UpperModelled` admits; the dotless ı
      uppers to I. Every other character is left as it is. */
  function UpperChar(c: char): char {
    if IsAsciiLower(c) || IsLatin1Lower(c) then (c as int - 32) as char
    else if c == 'ğ' then 'Ğ'
    else if c == 'ş' then 'Ş'
    else if c == 'ı' then 'I'
    else c
  }

  /** `s.upper()`, letter by letter. */
  function Uppered(s: string): string {
    seq(|s|, i requires 0 <= i < |s| => UpperChar(s[i]))
  }

  /** The characters on which `UpperChar` agrees with Python's `str.upper`:
      ASCII and Latin-1, except ß, µ and ÿ (which Python upper-cases to
      "SS", U+039C and U+0178), and the Turkish letters ğ, Ğ, ş, Ş, ı, İ. */
  predicate UpperModelled(c: char) {
    (c as int < 0x100 && c != 'ß' && c != 'µ' && c != 'ÿ') || c in "ğĞşŞıİ"
  }

  /** A string all of whose characters `UpperModelled` admits. */
  predicate CaseModelled(s: string) {
    forall i | 0 <= i < |s| :: UpperModelled(s[i])
  }

  function ReplaceChar(c: char, from: char, to: char): char {
    if c == from then to else c
  }

  /** `s.replace(from, to)` for one-character arguments. */
  function Replace(s: string, from: char, to: char): string {
    seq(|s|, i requires 0 <= i < |s| => ReplaceChar(s[i], from, to))
  }

  /** The replacements of rs applied one after the other, first to last. */
  function ReplaceAll(s: string, rs: seq<(char, char)>): string
    decreases |rs|
  {
    if rs == [] then s
    else Replace(ReplaceAll(s, rs[..|rs| - 1]), rs[|rs| - 1].0, rs[|rs| - 1].1)
  }

  function ReplaceAllChar(c: char, rs: seq<(char, char)>): char
    decreases |rs|
  {
    if rs == [] then c
    else ReplaceChar(ReplaceAllChar(c, rs[..|rs| - 1]), rs[|rs| - 1].0, rs[|rs| - 1].1)
  }

  /** The canonical decomposition (NFD) of the small letters that reach it. */
  function Decompose(c: char): string {
    match c
    case 'à' => "a\U{0300}"
    case 'á' => "a\U{0301}"
    case 'â' => "a\U{0302}"
    case 'ã' => "a\U{0303}"
    case 'ä' => "a\U{0308}"
    case 'å' => "a\U{030A}"
    case 'ç' => "c\U{0327}"
    case 'è' => "e\U{0300}"
    case 'é' => "e\U{0301}"
    case 'ê' => "e\U{0302}"
    case 'ë' => "e\U{0308}"
    case 'ì' => "i\U{0300}"
    case 'í' => "i\U{0301}"
    case 'î' => "i\U{0302}"
    case 'ï' => "i\U{0308}"
    case 'ñ' => "n\U{0303}"
    case 'ò' => "o\U{0300}"
    case 'ó' => "o\U{0301}"
    case 'ô' => "o\U{0302}"
    case 'õ' => "o\U{0303}"
    case 'ö' => "o\U{0308}"
    case 'ù' => "u\U{0300}"
    case 'ú' => "u\U{0301}"
    case 'û' => "u\U{0302}"
    case 'ü' => "u\U{0308}"
    case 'ý' => "y\U{0301}"
    case 'ÿ' => "y\U{0308}"
    case 'ğ' => "g\U{0306}"
    case 'ş' => "s\U{0327}"
    case _ => [c]
  }

  /** `unicodedata.normalize('NFD', s)`. */
  function Nfd(s: string): string {
    if s == [] then [] else Decompose(s[0]) + Nfd(s[1..])
  }

  /** The characters of s that are not combining marks, in order. */
  function StripMarks(s: string): string {
    if s == [] then []
    else StripMarks(s[..|s| - 1]) + (if IsMark(s[|s| - 1]) then [] else [s[|s| - 1]])
  }

  /** Everything normalize_turkish_text does after lower-casing. */
  function Folded(t: string): string {
    StripMarks(Nfd(ReplaceAll(Replace(Replace(t, 'İ', 'i'), 'I', 'ı'), REPLACEMENTS)))
  }

  /** The result of normalize_turkish_text(s). */
  function Normalized(s: string): string {
    Folded(Lowered(s))
  }

  /** normalize_turkish_text, step by step as the source rebinds its text. */
  method NormalizeTurkishText(text: string) returns (r: string)
    ensures r == Normalized(text)
  {
    var t := Lowered(text);
    t := Replace(Replace(t, 'İ', 'i'), 'I', 'ı');
    t := ReplaceEach(t, REPLACEMENTS);
    var decomposed := Nfd(t);
    r := "";
    for i := 0 to |decomposed|
      invariant r == StripMarks(decomposed[..i])
    {
      assert decomposed[..i + 1][..i] == decomposed[..i];
      if !IsMark(decomposed[i]) {
        r := r + [decomposed[i]];
      }
    }
    assert decomposed[..|decomposed|] == decomposed;
  }

  /** The loop over the replacement table: each pair in turn. */
  method ReplaceEach(text: string, rs: seq<(char, char)>) returns (t: string)
    ensures t == ReplaceAll(text, rs)
  {
    t := text;
    for k := 0 to |rs|
      invariant t == ReplaceAll(text, rs[..k])
    {
      var (from, to) := rs[k];
      assert rs[..k + 1][..k] == rs[..k];
      t := Replace(t, from, to);
    }
    assert rs[..|rs|] == rs;
  }

  // ---------------------------------------------------------------------
  // Each stage works character by character.

  lemma {:induction false} LoweredConcat(a: string, b: string)
    ensures Lowered(a + b) == Lowered(a) + Lowered(b)
    decreases |a|
  {
    if a != [] {
      assert (a + b)[0] == a[0] && (a + b)[1..] == a[1..] + b;
      LoweredConcat(a[1..], b);
      assert Lowered(a + b) == LowerChar(a[0]) + (Lowered(a[1..]) + Lowered(b));
    } else {
      assert a + b == b;
    }
  }

  lemma LoweredSingle(c: char)
    ensures Lowered([c]) == LowerChar(c)
  {
    assert [c][1..] == [];
  }

  lemma ReplaceConcat(a: string, b: string, from: char, to: char)
    ensures Replace(a + b, from, to) == Replace(a, from, to) + Replace(b, from, to)
  {
  }

  lemma {:induction false} ReplaceAllAt(s: string, rs: seq<(char, char)>)
    ensures |ReplaceAll(s, rs)| == |s|
    ensures forall i | 0 <= i < |s| :: ReplaceAll(s, rs)[i] == ReplaceAllChar(s[i], rs)
    decreases |rs|
  {
    if rs != [] {
      ReplaceAllAt(s, rs[..|rs| - 1]);
    }
  }

  lemma ReplaceAllConcat(a: string, b: string, rs: seq<(char, char)>)
    ensures ReplaceAll(a + b, rs) == ReplaceAll(a, rs) + ReplaceAll(b, rs)
  {
    ReplaceAllAt(a + b, rs);
    ReplaceAllAt(a, rs);
    ReplaceAllAt(b, rs);
  }

  lemma {:induction false} NfdConcat(a: string, b: string)
    ensures Nfd(a + b) == Nfd(a) + Nfd(b)
    decreases |a|
  {
    if a != [] {
      assert (a + b)[0] == a[0] && (a + b)[1..] == a[1..] + b;
      NfdConcat(a[1..], b);
      assert Nfd(a + b) == Decompose(a[0]) + (Nfd(a[1..]) + Nfd(b));
    } else {
      assert a + b == b;
    }
  }

  lemma {:induction false} StripMarksConcat(a: string, b: string)
    ensures StripMarks(a + b) == StripMarks(a) + StripMarks(b)
    decreases |b|
  {
    if b != [] {
      var b' := b[..|b| - 1];
      var last := b[|b| - 1];
      assert (a + b)[..|a + b| - 1] == a + b' && (a + b)[|a + b| - 1] == last;
      StripMarksConcat(a, b');
      var tail := if IsMark(last) then [] else [last];
      assert StripMarks(a + b) == (StripMarks(a) + StripMarks(b')) + tail;
    } else {
      assert a + b == a;
    }
  }

  lemma FoldedConcat(a: string, b: string)
    ensures Folded(a + b) == Folded(a) + Folded(b)
  {
    var step1 := Replace(Replace(a, 'İ', 'i'), 'I', 'ı');
    var step2 := Replace(Replace(b, 'İ', 'i'), 'I', 'ı');
    assert Replace(Replace(a + b, 'İ', 'i'), 'I', 'ı') == step1 + step2;
    ReplaceAllConcat(step1, step2, REPLACEMENTS);
    NfdConcat(ReplaceAll(step1, REPLACEMENTS), ReplaceAll(step2, REPLACEMENTS));
    StripMarksConcat(Nfd(ReplaceAll(step1, REPLACEMENTS)), Nfd(ReplaceAll(step2, REPLACEMENTS)));
  }

  /** Normalisation works character by character: it distributes over concatenation. */
  lemma NormalizedConcat(a: string, b: string)
    ensures Normalized(a + b) == Normalized(a) + Normalized(b)
  {
    LoweredConcat(a, b);
    FoldedConcat(Lowered(a), Lowered(b));
  }

  /** What the table does to one character: each Turkish letter becomes its base letter. */
  function BaseLetter(c: char): char {
    match c
    case 'ğ' => 'g'
    case 'ü' => 'u'
    case 'ş' => 's'
    case 'ı' => 'i'
    case 'ö' => 'o'
    case 'ç' => 'c'
    case 'â' => 'a'
    case 'î' => 'i'
    case 'û' => 'u'
    case _ => c
  }

  lemma ReplacementTable(c: char)
    ensures ReplaceAllChar(c, REPLACEMENTS) == BaseLetter(c)
  {
    var r := REPLACEMENTS;
    var c1 := ReplaceChar(c, 'ğ', 'g');
    var c2 := ReplaceChar(c1, 'ü', 'u');
    var c3 := ReplaceChar(c2, 'ş', 's');
    var c4 := ReplaceChar(c3, 'ı', 'i');
    var c5 := ReplaceChar(c4, 'ö', 'o');
    var c6 := ReplaceChar(c5, 'ç', 'c');
    var c7 := ReplaceChar(c6, 'â', 'a');
    var c8 := ReplaceChar(c7, 'î', 'i');
    var c9 := ReplaceChar(c8, 'û', 'u');
    assert ReplaceAllChar(c, r[..1]) == c1 by { assert r[..1][..0] == []; }
    assert ReplaceAllChar(c, r[..2]) == c2 by { assert r[..2][..1] == r[..1]; }
    assert ReplaceAllChar(c, r[..3]) == c3 by { assert r[..3][..2] == r[..2]; }
    assert ReplaceAllChar(c, r[..4]) == c4 by { assert r[..4][..3] == r[..3]; }
    assert ReplaceAllChar(c, r[..5]) == c5 by { assert r[..5][..4] == r[..4]; }
    assert ReplaceAllChar(c, r[..6]) == c6 by { assert r[..6][..5] == r[..5]; }
    assert ReplaceAllChar(c, r[..7]) == c7 by { assert r[..7][..6] == r[..6]; }
    assert ReplaceAllChar(c, r[..8]) == c8 by { assert r[..8][..7] == r[..7]; }
    assert ReplaceAllChar(c, r) == c9 by { assert r[..9] == r; }
  }

  /** Folded on a single character. */
  function FoldChar(c: char): string {
    StripMarks(Decompose(BaseLetter(ReplaceChar(ReplaceChar(c, 'İ', 'i'), 'I', 'ı'))))
  }

  lemma FoldedSingle(c: char)
    ensures Folded([c]) == FoldChar(c)
  {
    var w := ReplaceChar(ReplaceChar(c, 'İ', 'i'), 'I', 'ı');
    var t := Replace(Replace([c], 'İ', 'i'), 'I', 'ı');
    assert t == [w];
    ReplaceAllAt(t, REPLACEMENTS);
    ReplacementTable(w);
    var u := ReplaceAll(t, REPLACEMENTS);
    assert u == [BaseLetter(w)];
    assert u[1..] == [];
    assert Nfd(u) == Decompose(BaseLetter(w)) + Nfd([]);
    assert Nfd(u) == Decompose(BaseLetter(w));
    assert Folded([c]) == StripMarks(Nfd(u));
  }

  lemma StripMarksSingle(c: char)
    ensures StripMarks([c]) == if IsMark(c) then [] else [c]
  {
    assert [c][..0] == [];
  }

  lemma StripMarksPair(c: char, d: char)
    ensures StripMarks([c, d]) == StripMarks([c]) + StripMarks([d])
  {
    StripMarksConcat([c], [d]);
    assert [c] + [d] == [c, d];
  }

  // ---------------------------------------------------------------------
  // The characters normalisation leaves alone, and those it produces.

  /** A character that normalisation maps to itself. */
  predicate IsNormal(c: char) {
    LowerChar(c) == [c] && c !in TURKISH_LETTERS && c != 'I' && c != 'İ'
    && Decompose(c) == [c] && !IsMark(c)
  }

  lemma NormalSingle(c: char)
    requires IsNormal(c)
    ensures Normalized([c]) == [c]
  {
    LoweredSingle(c);
    FoldedSingle(c);
    StripMarksSingle(c);
  }

  /** LowerChar gives one lower-case character, or i and the combining dot. */
  lemma LowerCharShape(c: char)
    ensures (|LowerChar(c)| == 1 && LowerChar(LowerChar(c)[0]) == LowerChar(c))
      || LowerChar(c) == ['i', COMBINING_DOT_ABOVE]
  {
  }

  lemma BaseLetterIsLower(x: char)
    requires LowerChar(x) == [x]
    ensures var y := BaseLetter(ReplaceChar(ReplaceChar(x, 'İ', 'i'), 'I', 'ı'));
      y !in TURKISH_LETTERS && y != 'I' && y != 'İ' && LowerChar(y) == [y]
  {
  }

  lemma DecomposeShape(y: char)
    ensures Decompose(y) == [y]
      || (|Decompose(y)| == 2 && IsAsciiLower(Decompose(y)[0]) && IsMark(Decompose(y)[1]))
  {
  }

  lemma AsciiLowerIsNormal(c: char)
    requires IsAsciiLower(c)
    ensures IsNormal(c)
  {
  }

  lemma FoldCharIsNormal(x: char)
    requires LowerChar(x) == [x]
    ensures forall y | y in FoldChar(x) :: IsNormal(y)
  {
    var w := ReplaceChar(ReplaceChar(x, 'İ', 'i'), 'I', 'ı');
    var y := BaseLetter(w);
    BaseLetterIsLower(x);
    var d := Decompose(y);
    DecomposeShape(y);
    if d == [y] {
      StripMarksSingle(y);
    } else {
      assert d == [d[0], d[1]];
      StripMarksPair(d[0], d[1]);
      StripMarksSingle(d[0]);
      StripMarksSingle(d[1]);
      AsciiLowerIsNormal(d[0]);
    }
  }

  /** The lower-case form of 'İ' folds to a plain 'i'. */
  lemma FoldedDotted(l: string)
    requires |l| == 2 && l[0] == 'i' && l[1] == COMBINING_DOT_ABOVE
    ensures Folded(l) == [l[0]]
  {
    var x, d := l[0], l[1];
    assert l == [x] + [d];
    FoldedConcat([x], [d]);
    FoldedSingle(x);
    FoldedSingle(d);
    FoldCharFixed(x);
    FoldCharMark(d);
  }

  lemma FoldCharFixed(x: char)
    requires IsAsciiLower(x)
    ensures FoldChar(x) == [x]
  {
    assert ReplaceChar(ReplaceChar(x, 'İ', 'i'), 'I', 'ı') == x;
    assert BaseLetter(x) == x;
    assert Decompose(x) == [x];
    StripMarksSingle(x);
  }

  lemma FoldCharMark(d: char)
    requires IsMark(d)
    ensures FoldChar(d) == []
  {
    assert ReplaceChar(ReplaceChar(d, 'İ', 'i'), 'I', 'ı') == d;
    assert BaseLetter(d) == d;
    assert Decompose(d) == [d];
    StripMarksSingle(d);
  }

  lemma SingleIsNormal(c: char)
    ensures forall y | y in Normalized([c]) :: IsNormal(y)
  {
    LoweredSingle(c);
    LowerCharShape(c);
    var l := LowerChar(c);
    if |l| == 1 {
      var x := l[0];
      assert l == [x];
      FoldedSingle(x);
      FoldCharIsNormal(x);
    } else {
      FoldedDotted(l);
      AsciiLowerIsNormal('i');
    }
  }

  lemma NormalizedEmpty()
    ensures Normalized([]) == []
  {
    var t := Replace(Replace([], 'İ', 'i'), 'I', 'ı');
    assert t == [];
    ReplaceAllAt(t, REPLACEMENTS);
    assert ReplaceAll(t, REPLACEMENTS) == [];
    assert Nfd([]) == [];
    assert Folded([]) == StripMarks([]);
  }

  lemma {:induction false} AllNormal(s: string)
    ensures forall y | y in Normalized(s) :: IsNormal(y)
    decreases |s|
  {
    if s == [] {
      NormalizedEmpty();
    } else {
      assert s == [s[0]] + s[1..];
      NormalizedConcat([s[0]], s[1..]);
      SingleIsNormal(s[0]);
      AllNormal(s[1..]);
    }
  }

  lemma {:induction false} NormalFixed(t: string)
    requires forall y | y in t :: IsNormal(y)
    ensures Normalized(t) == t
    decreases |t|
  {
    if t == [] {
      NormalizedEmpty();
    } else {
      assert t == [t[0]] + t[1..];
      NormalizedConcat([t[0]], t[1..]);
      NormalSingle(t[0]);
      NormalFixed(t[1..]);
    }
  }

  // ---------------------------------------------------------------------
  // Properties of normalisation.

  /** After normalisation none of ğ ü ş ı ö ç â î û remain, nor an ASCII
      capital, the dotted İ or a combining mark. */
  lemma NoTurkishLetterRemains(s: string)
    ensures forall y | y in Normalized(s) ::
      y !in TURKISH_LETTERS && !IsAsciiUpper(y) && y != 'İ' && !IsMark(y)
  {
    AllNormal(s);
  }

  /** Normalising twice is normalising once. */
  lemma NormalizedIdempotent(s: string)
    ensures Normalized(Normalized(s)) == Normalized(s)
  {
    AllNormal(s);
    NormalFixed(Normalized(s));
  }

  lemma {:induction false} LoweredIdempotent(s: string)
    ensures Lowered(Lowered(s)) == Lowered(s)
    decreases |s|
  {
    if s != [] {
      var l := LowerChar(s[0]);
      LoweredConcat(l, Lowered(s[1..]));
      LoweredIdempotent(s[1..]);
      if |l| == 1 {
        assert l == [l[0]];
        LoweredSingle(l[0]);
      } else {
        assert l == ['i'] + [COMBINING_DOT_ABOVE];
        LoweredConcat(['i'], [COMBINING_DOT_ABOVE]);
        LoweredSingle('i');
        LoweredSingle(COMBINING_DOT_ABOVE);
      }
    }
  }

  /** A name and its lower-case form normalise alike. */
  lemma NormalizedLowercase(s: string)
    ensures Normalized(Lowered(s)) == Normalized(s)
  {
    LoweredIdempotent(s);
  }

  lemma UpperCharNormalizedAlike(c: char)
    ensures Normalized([UpperChar(c)]) == Normalized([c])
  {
    LoweredSingle(c);
    LoweredSingle(UpperChar(c));
    var l, u := LowerChar(c), LowerChar(UpperChar(c));
    if l != u {
      assert c == 'ı' && l == [c] && u == ['i'];
      FoldedSingle(l[0]);
      FoldedSingle(u[0]);
    }
  }

  /** A name and its upper-case form normalise alike (Python's `str.upper`,
      under which ı and i both become I). */
  lemma {:induction false} NormalizedUppercase(s: string)
    requires CaseModelled(s)
    ensures Normalized(Uppered(s)) == Normalized(s)
    decreases |s|
  {
    if s != [] {
      assert s == [s[0]] + s[1..];
      assert Uppered(s) == [UpperChar(s[0])] + Uppered(s[1..]);
      NormalizedConcat([s[0]], s[1..]);
      NormalizedConcat([UpperChar(s[0])], Uppered(s[1..]));
      UpperCharNormalizedAlike(s[0]);
      NormalizedUppercase(s[1..]);
    }
  }

  /** Comparison after normalisation ignores case: two names that differ
      only in case normalise to the same string. */
  lemma CaseInsensitive(a: string, b: string)
    requires CaseModelled(a) && CaseModelled(b)
    requires Uppered(a) == Uppered(b)
    ensures Normalized(a) == Normalized(b)
  {
    NormalizedUppercase(a);
    NormalizedUppercase(b);
  }

  lemma SharpSNormalized(sharp: char)
    requires sharp == 'ß'
    ensures Normalized([sharp]) == [sharp]
  {
    assert IsNormal(sharp);
    NormalSingle(sharp);
  }

  lemma CapitalSNormalized(capital: char)
    requires capital == 'S'
    ensures Normalized([capital]) == ['s']
  {
    UpperCharNormalizedAlike('s');
    AsciiLowerIsNormal('s');
    NormalSingle('s');
  }

  /** Why ß is left out of `UpperModelled`: Python upper-cases "ß" to
      "SS", and the two normalise differently, so comparison after
      normalisation does not ignore case for it. */
  lemma SharpSNotCaseInsensitive(sharp: char, upper: string)
    requires sharp == 'ß' && upper == ['S', 'S']
    ensures Normalized(upper) == ['s', 's']
    ensures Normalized([sharp]) == [sharp]
  {
    var capital := upper[0];
    assert upper == [capital] + [capital];
    NormalizedConcat([capital], [capital]);
    CapitalSNormalized(capital);
    SharpSNormalized(sharp);
  }

  // ---------------------------------------------------------------------
  // A reference definition over the alphabet of Turkish names.

  /** The letters of Turkish names: ASCII letters, the Turkish letters in
      both cases, and the space. */
  predicate IsTurkishAlphabet(c: char) {
    IsAsciiLower(c) || IsAsciiUpper(c) || c == ' ' || c in "çÇğĞıİöÖşŞüÜâÂîÎûÛ"
  }

  /** Upper-casing a Turkish name is Python's `str.upper`. */
  lemma TurkishCaseModelled(s: string)
    requires forall i | 0 <= i < |s| :: IsTurkishAlphabet(s[i])
    ensures CaseModelled(s)
  {
  }

  /** Each letter of a Turkish name mapped to its lower-case ASCII base letter. */
  function AsciiFold(c: char): char {
    if IsAsciiUpper(c) then (c as int + 32) as char
    else
      match c
      case 'ç' => 'c' case 'Ç' => 'c'
      case 'ğ' => 'g' case 'Ğ' => 'g'
      case 'ı' => 'i' case 'İ' => 'i'
      case 'ö' => 'o' case 'Ö' => 'o'
      case 'ş' => 's' case 'Ş' => 's'
      case 'ü' => 'u' case 'Ü' => 'u'
      case 'â' => 'a' case 'Â' => 'a'
      case 'î' => 'i' case 'Î' => 'i'
      case 'û' => 'u' case 'Û' => 'u'
      case _ => c
  }

  lemma BaseOfTurkishLetter(c: char)
    requires IsTurkishAlphabet(c) && c != 'İ'
    ensures |LowerChar(c)| == 1
    ensures BaseLetter(ReplaceChar(ReplaceChar(LowerChar(c)[0], 'İ', 'i'), 'I', 'ı')) == AsciiFold(c)
    ensures IsAsciiLower(AsciiFold(c)) || AsciiFold(c) == ' '
  {
    if !IsAsciiLower(c) && !IsAsciiUpper(c) && c != ' ' {
      BaseOfAccented(c);
    }
  }

  lemma BaseOfAccented(c: char)
    requires c in "çÇğĞıöÖşŞüÜâÂîÎûÛ"
    ensures |LowerChar(c)| == 1
    ensures BaseLetter(ReplaceChar(ReplaceChar(LowerChar(c)[0], 'İ', 'i'), 'I', 'ı')) == AsciiFold(c)
    ensures IsAsciiLower(AsciiFold(c))
  {
    if c in "çğıöşüâîû" {
      BaseOfSmall(c);
    } else {
      BaseOfCapital(c);
      BaseOfSmall(LowerChar(c)[0]);
    }
  }

  lemma BaseOfCapital(c: char)
    requires c in "ÇĞÖŞÜÂÎÛ"
    ensures |LowerChar(c)| == 1 && LowerChar(c)[0] in "çğöşüâîû"
    ensures AsciiFold(LowerChar(c)[0]) == AsciiFold(c)
  {
  }

  lemma BaseOfSmall(c: char)
    requires c in "çğıöşüâîû"
    ensures LowerChar(c) == [c]
    ensures BaseLetter(ReplaceChar(ReplaceChar(c, 'İ', 'i'), 'I', 'ı')) == AsciiFold(c)
    ensures IsAsciiLower(AsciiFold(c))
  {
  }

  lemma FoldCharTurkish(c: char)
    requires IsTurkishAlphabet(c) && c != 'İ'
    ensures |LowerChar(c)| == 1 && FoldChar(LowerChar(c)[0]) == [AsciiFold(c)]
  {
    BaseOfTurkishLetter(c);
    var y := AsciiFold(c);
    if y == ' ' {
      assert Decompose(' ') == [' '];
    } else {
      AsciiLowerIsNormal(y);
    }
    StripMarksSingle(y);
  }

  lemma FoldTurkishChar(c: char)
    requires IsTurkishAlphabet(c)
    ensures Normalized([c]) == [AsciiFold(c)]
  {
    LoweredSingle(c);
    if c == 'İ' {
      FoldedDotted(LowerChar(c));
    } else {
      FoldCharTurkish(c);
      var x := LowerChar(c)[0];
      assert LowerChar(c) == [x];
      FoldedSingle(x);
    }
  }

  /** AsciiFold applied to each letter, one letter at a time. */
  function AsciiFolded(s: string): (r: string)
    ensures |r| == |s|
    ensures forall i | 0 <= i < |s| :: r[i] == AsciiFold(s[i])
  {
    if s == [] then [] else [AsciiFold(s[0])] + AsciiFolded(s[1..])
  }

  lemma {:induction false} NormalizedAsciiFolded(s: string)
    requires forall i | 0 <= i < |s| :: IsTurkishAlphabet(s[i])
    ensures Normalized(s) == AsciiFolded(s)
    decreases |s|
  {
    if s == [] {
      NormalizedEmpty();
    } else {
      assert s == [s[0]] + s[1..];
      NormalizedConcat([s[0]], s[1..]);
      FoldTurkishChar(s[0]);
      NormalizedAsciiFolded(s[1..]);
    }
  }

  /** On a name spelled in the Turkish alphabet, normalisation lower-cases
      each letter and replaces each Turkish letter by its ASCII base
      letter (ğ→g, ü→u, ş→s, ı→i, ö→o, ç→c, â→a, î→i, û→u, İ→i). */
  lemma NormalizedTurkishName(s: string)
    requires forall i | 0 <= i < |s| :: IsTurkishAlphabet(s[i])
    ensures Normalized(s) == seq(|s|, i requires 0 <= i < |s| => AsciiFold(s[i]))
  {
    NormalizedAsciiFolded(s);
  }
}
