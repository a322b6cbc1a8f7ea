/** What the grammar, the parser and the printer have in common, fixed in terms of literal characters and numbers:
    hexadecimal digits, the value of a number, the order of keys and the printed text. */
module JsonLiterals {
  import opened JsonStrings
  import opened JsonSyntax
  import opened JsonText
  import opened JsonGarbage
  import R = JsonResults
  import G = JsonGrammar

  /** The characters of an ASCII text. */
  function Ascii(s: string): (r: seq<int>)
    ensures |r| == |s| && forall i :: 0 <= i < |s| ==> r[i] == s[i] as int
  {
    seq(|s|, i requires 0 <= i < |s| => s[i] as int)
  }

  // ---------------------------------------------------------------- hexadecimal digits

  /** The character is the hexadecimal digit `d`, in either case. */
  predicate Spells(b: int, d: int) {
    || (0 <= d < 10 && b == 48 + d)
    || (10 <= d < 16 && (b == 55 + d || b == 87 + d))
  }

  ghost predicate NoDigit(b: int) { forall d :: !Spells(b, d) }

  /** The four digits of a code unit. */
  predicate SpellsUnit(hex: seq<int>, c: int) {
    && |hex| == 4 && 0 <= c < 0x10000
    && Spells(hex[0], c / 0x1000) && Spells(hex[1], c / 0x100 % 0x10)
    && Spells(hex[2], c / 0x10 % 0x10) && Spells(hex[3], c % 0x10)
  }

  lemma HexMeans(b: byte)
    ensures HexDigit(b) <==> exists d :: Spells(b, d)
    ensures forall d :: Spells(b, d) ==> HexDigit(b) && HexValue(b) == d
  {
    if HexDigit(b) { assert Spells(b, HexValue(b)); }
  }

  lemma UnitDigits(c: int, d0: int, d1: int, d2: int, d3: int)
    requires 0 <= c < 0x10000
    requires d0 == c / 0x1000 && d1 == c / 0x100 % 0x10 && d2 == c / 0x10 % 0x10 && d3 == c % 0x10
    ensures c == ((d0 * 16 + d1) * 16 + d2) * 16 + d3
  {
    assert c / 0x100 == d0 * 16 + d1;
    assert c / 0x10 == c / 0x100 * 16 + d2;
  }

  lemma Hex4Means(hex: seq<byte>, c: int)
    requires SpellsUnit(hex, c)
    ensures (forall i :: 0 <= i < 4 ==> HexDigit(hex[i])) && Hex4(hex) == c
  {
    hide HexValue, HexDigit, Spells;
    HexMeans(hex[0]);
    HexMeans(hex[1]);
    HexMeans(hex[2]);
    HexMeans(hex[3]);
    UnitDigits(c, c / 0x1000, c / 0x100 % 0x10, c / 0x10 % 0x10, c % 0x10);
  }

  /** A code unit may be written with digits of either case, and is read as that code unit. */
  lemma UnicodeEscape(c: int, hex: seq<byte>, rest: seq<byte>)
    requires SpellsUnit(hex, c)
    ensures Lex([92, 117] + hex + rest) == Prepend(Escaped(c), Lex(rest))
  {
    hide Lex, Hex4, HexDigit;
    Hex4Means(hex, c);
    var e := [92, 117] + hex;
    assert e[2..] == hex;
    LexUnicode(e, rest);
  }

  /** Anything else after a backslash and a u is refused. */
  lemma UnicodeRefused(t: seq<byte>)
    requires |t| >= 2 && t[0] == 92 && t[1] == 117
    requires |t| < 6 || exists i :: 2 <= i < 6 && NoDigit(t[i])
    ensures Lex(t) == Failed(BadUnicode)
  {
    hide HexDigit, HexValue, Hex4, Spells;
    if |t| >= 6 {
      var i :| 2 <= i < 6 && NoDigit(t[i]);
      HexMeans(t[i]);
    }
  }

  /** The same of the grammar. */
  lemma UnicodeGlyph(hex: seq<byte>)
    ensures G.GlyphOk(G.Unicode(hex)) <==> exists c :: SpellsUnit(hex, c)
    ensures forall c :: SpellsUnit(hex, c) ==>
      G.GlyphOk(G.Unicode(hex)) && G.GlyphPiece(G.Unicode(hex)) == Escaped(c) &&
      G.GlyphText(G.Unicode(hex)) == [92, 117] + hex
  {
    hide HexDigit, HexValue, Hex4, SpellsUnit;
    forall c | SpellsUnit(hex, c) ensures G.GlyphOk(G.Unicode(hex)) && Hex4(hex) == c { SpelledGlyph(hex, c); }
    if G.GlyphOk(G.Unicode(hex)) {
      HexSpelling(hex);
    }
  }

  lemma SpelledGlyph(hex: seq<byte>, c: int)
    requires SpellsUnit(hex, c)
    ensures G.GlyphOk(G.Unicode(hex)) && Hex4(hex) == c
  {
    hide HexDigit, HexValue, Hex4;
    Hex4Means(hex, c);
  }

  lemma OneDigit(q: int, d: int)
    requires 0 <= d < 16
    ensures (q * 16 + d) / 0x10 == q && (q * 16 + d) % 0x10 == d
  {}

  lemma FourDigits(d0: int, d1: int, d2: int, d3: int, c: int)
    requires 0 <= d0 < 16 && 0 <= d1 < 16 && 0 <= d2 < 16 && 0 <= d3 < 16
    requires c == ((d0 * 16 + d1) * 16 + d2) * 16 + d3
    ensures c / 0x1000 == d0 && c / 0x100 % 0x10 == d1 && c / 0x10 % 0x10 == d2 && c % 0x10 == d3
  {
    OneDigit((d0 * 16 + d1) * 16 + d2, d3);
    OneDigit(d0 * 16 + d1, d2);
    OneDigit(d0, d1);
    assert c / 0x100 == c / 0x10 / 0x10 && c / 0x1000 == c / 0x100 / 0x10;
  }

  lemma HexSpelling(hex: seq<byte>)
    requires |hex| == 4 && forall i :: 0 <= i < 4 ==> HexDigit(hex[i])
    ensures SpellsUnit(hex, Hex4(hex))
  {
    FourDigits(HexValue(hex[0]), HexValue(hex[1]), HexValue(hex[2]), HexValue(hex[3]), Hex4(hex));
  }

  /** A text that is one escape parses to the UTF-8 of its code unit. */
  lemma EscapeParses(c: int, hex: seq<byte>, strategy: Strategy)
    requires SpellsUnit(hex, c)
    ensures exists octets: seq<byte> ::
      IsUtf8(c, octets) && Parse([34, 92, 117] + hex + [34], strategy) == Done(Str(octets), [])
  {
    hide Lex, IsUtf8, SpellsUnit, EncodeUtf8;
    SpelledGlyph(hex, c);
    var t := [34, 92, 117] + hex + [34];
    LexQuote([]);
    UnicodeEscape(c, hex, [34]);
    assert t[1..] == [92, 117] + hex + [34];
    assert [34] + [] == [34];
    assert [Escaped(c)] + [] == [Escaped(c)];
    assert Lex(t[1..]) == Done([Escaped(c)], []);
    OneEscape(c);
    assert Token(t, strategy) == Done(34, t);
    Utf8Agrees(c, EncodeUtf8(c));
    assert ParseToken(t, 0, strategy) == Done(Str(EncodeUtf8(c)), []);
  }

  lemma OneEscape(c: int)
    requires 0 <= c < 0x10000
    ensures Decoded([Escaped(c)]) == EncodeUtf8(c)
  {
    hide EncodeUtf8;
    DecodedNothing();
    PairAlone(c);
    Front(Escaped(c), []);
    assert [Escaped(c)] + [] == [Escaped(c)];
  }

  lemma PairAlone(c: int)
    requires 0 <= c < 0x10000
    ensures Paired([Escaped(c)]) == [Escaped(c)]
  {
    assert [Escaped(c)][1..] == [];
  }

  // ---------------------------------------------------------------- numbers

  /** The value of decimal digits by their places. */
  ghost function Positional(t: seq<byte>): int {
    if t == [] then 0 else (t[0] - 48) * R.Power(|t| - 1) + Positional(t[1..])
  }

  lemma {:induction false} PositionalEnd(t: seq<byte>, b: byte)
    ensures Positional(t + [b]) == Positional(t) * 10 + (b - 48)
  {
    if t == [] {
      assert t + [b] == [b] && [b][1..] == [];
    } else {
      PositionalEnd(t[1..], b);
      assert (t + [b])[1..] == t[1..] + [b];
      assert R.Power(|t|) == 10 * R.Power(|t| - 1);
      assert (t[0] - 48) * R.Power(|t|) == (t[0] - 48) * R.Power(|t| - 1) * 10;
    }
  }

  lemma {:induction false} DigitsMean(t: seq<byte>)
    requires AllDigits(t)
    ensures DigitsValue(t) == Positional(t)
  {
    if t != [] {
      var n := |t| - 1;
      DigitsMean(t[..n]);
      PositionalEnd(t[..n], t[n]);
      assert t == t[..n] + [t[n]];
    }
  }

  lemma PowerNext(n: nat)
    ensures R.Power(0) == 1 && R.Power(n + 1) == 10 * R.Power(n)
  {}

  lemma TimesTen(x: int, y: int)
    ensures x * (10 * y) == 10 * (x * y)
  {}

  lemma {:induction false} PositionalConcat(a: seq<byte>, b: seq<byte>)
    ensures Positional(a + b) == Positional(a) * R.Power(|b|) + Positional(b)
    decreases |b|, 0
  {
    hide R.Power;
    if b == [] {
      PowerNext(0);
      assert a + b == a;
    } else {
      var n := |b| - 1;
      ConcatStep(a, b[..n], b[n]);
      assert b == b[..n] + [b[n]];
    }
  }

  lemma {:induction false} ConcatStep(a: seq<byte>, b: seq<byte>, c: byte)
    ensures Positional(a + (b + [c])) == Positional(a) * R.Power(|b| + 1) + Positional(b + [c])
    decreases |b|, 1
  {
    hide R.Power, Positional;
    PositionalConcat(a, b);
    PositionalEnd(a + b, c);
    PositionalEnd(b, c);
    assert a + (b + [c]) == a + b + [c];
    PowerNext(|b|);
    TimesTen(Positional(a), R.Power(|b|));
  }

  lemma Pow10Next(k: int)
    ensures Pow10(k + 1) == 10.0 * Pow10(k)
  {}

  lemma {:induction false} Pow10Times(k: int, n: nat)
    ensures Pow10(k) * R.Power(n) as real == Pow10(k + n)
  {
    hide Pow10;
    if n == 0 {
      assert R.Power(0) as real == 1.0;
    } else {
      Pow10Times(k, n - 1);
      Pow10Next(k + n - 1);
      assert k + n - 1 + 1 == k + n;
      assert R.Power(n) == 10 * R.Power(n - 1);
      Scaled(Pow10(k), 10.0, R.Power(n - 1) as real, R.Power(n) as real);
    }
  }

  lemma Pow10Zero()
    ensures Pow10(0) == 1.0
  {}

  /** A number without fraction and exponent of at most nine characters is an int, the int its digits stand for. */
  lemma IntMeans(m: Numeral)
    requires m.Ok()
    ensures NumeralValue(m).Int? <==>
      m.frac == [] && m.exp == [] && (if m.neg then |m.whole| < 9 else |m.whole| <= 9)
    ensures NumeralValue(m).Int? ==>
      NumeralValue(m).n == if m.neg then -Positional(m.whole) else Positional(m.whole)
  {
    DigitsMean(m.whole);
  }

  lemma Scaled(a: real, p: real, q: real, r: real)
    requires p * q == r
    ensures a * p * q == a * r
  {
    assert a * p * q == a * (p * q);
  }

  /** The digits before and after the point, as one number with the sign. */
  ghost function Written(m: Numeral): int {
    var w := Positional(m.whole) * R.Power(|m.frac|) + Positional(m.frac);
    if m.neg then -w else w
  }

  lemma DoubleScaled(m: Numeral)
    requires m.Ok() && !NumeralValue(m).Int?
    ensures var e := if m.expNeg then 0 - DigitsValue(m.exp) else DigitsValue(m.exp);
      NumeralValue(m) == Double(Written(m) as real * Pow10(e - |m.frac|))
  {
    hide Pow10, DigitsValue, Positional;
    DigitsMean(m.whole + m.frac);
    PositionalConcat(m.whole, m.frac);
  }

  lemma TimesPower(a: real, k: int, n: nat)
    ensures a * Pow10(k) * R.Power(n) as real == a * Pow10(k + n)
  {
    hide Pow10, R.Power;
    Pow10Times(k, n);
    Scaled(a, Pow10(k), R.Power(n) as real, Pow10(k + n));
  }

  lemma {:induction false} PowersAgree(n: nat)
    ensures Pow10(n) == R.Power(n) as real
  {
    hide Pow10;
    Pow10Zero();
    if n > 0 {
      PowersAgree(n - 1);
      Pow10Next(n - 1);
    }
  }

  /** Any other number is the rational number it is written as: with `w` and `f` the numbers before and after the
      point and `e` the exponent, the value is (w + f / 10^|frac|) * 10^e with its sign. */
  lemma DoubleMeans(m: Numeral)
    requires m.Ok() && !NumeralValue(m).Int?
    ensures NumeralValue(m).Double? && Positional(m.exp) >= 0
    ensures var x, k, e := NumeralValue(m).x, |m.frac|, Positional(m.exp);
      && (m.expNeg ==> x * R.Power(k + e) as real == Written(m) as real)
      && (!m.expNeg ==> x * R.Power(k) as real == Written(m) as real * R.Power(e) as real)
  {
    hide Pow10, DigitsValue, NumeralValue, Written, Positional, R.Power;
    DoubleScaled(m);
    DigitsMean(m.exp);
    Pow10Zero();
    var k, e, a := |m.frac|, DigitsValue(m.exp), Written(m) as real;
    if m.expNeg {
      TimesPower(a, 0 - e - k, k + e);
      assert Pow10(0 - e - k + (k + e)) == 1.0;
    } else {
      TimesPower(a, e - k, k);
      PowersAgree(e);
      assert Pow10(e - k + k) == Pow10(e);
    }
  }

  /** The grammar's numbers in characters: a minus sign, digits without a leading zero, a point and digits, and a
      letter e with an optional sign and digits. */
  lemma NumberLetters(n: G.Number)
    ensures G.NumberOk(n) ==>
      && n.whole != [] && (n.whole[0] == 48 ==> |n.whole| == 1)
      && (n.letter == 101 || n.letter == 69)
      && (n.sign == [] || n.sign == Ascii("+") || n.sign == Ascii("-"))
      && G.NumberText(n) ==
           (if n.neg then Ascii("-") else []) + n.whole
           + (if n.frac == [] then [] else Ascii(".") + n.frac)
           + (if n.exp == [] then [] else [n.letter] + n.sign + n.exp)
    ensures forall t :: AllDigits(t) <==> forall i :: 0 <= i < |t| ==> 48 <= t[i] <= 57
  {
    if G.NumberOk(n) {
      assert n.whole + (G.FracText(n) + G.ExpText(n)) == n.whole + G.FracText(n) + G.ExpText(n);
    }
  }

  // ---------------------------------------------------------------- keys

  /** The first difference of the two is at `i`, where `a` is less or has ended. */
  ghost predicate LessAt(a: seq<byte>, b: seq<byte>, i: nat) {
    && i <= |a| && i < |b| && (forall j :: 0 <= j < i ==> a[j] == b[j])
    && (i == |a| || a[i] < b[i])
  }

  /** Keys are in the order of a dictionary: the first difference counts, and a proper prefix comes first. */
  lemma {:induction false} LessMeans(a: seq<byte>, b: seq<byte>)
    ensures Less(a, b) <==> exists i: nat :: LessAt(a, b, i)
  {
    if a == [] {
      assert b != [] ==> LessAt(a, b, 0);
    } else if b != [] {
      LessMeans(a[1..], b[1..]);
      if a[0] < b[0] { assert LessAt(a, b, 0); }
      if a[0] == b[0] { LessAtRest(a, b); }
    }
  }

  lemma LessAtRest(a: seq<byte>, b: seq<byte>)
    requires a != [] && b != [] && a[0] == b[0]
    ensures (exists i: nat :: LessAt(a, b, i)) <==> exists i: nat :: LessAt(a[1..], b[1..], i)
  {
    if i: nat :| LessAt(a, b, i) {
      assert i > 0 && LessAt(a[1..], b[1..], i - 1);
    }
    if i: nat :| LessAt(a[1..], b[1..], i) {
      forall j | 0 <= j < i + 1 ensures a[j] == b[j] {
        if j > 0 { assert a[1..][j - 1] == b[1..][j - 1]; }
      }
      assert LessAt(a, b, i + 1);
    }
  }

  // ---------------------------------------------------------------- white space and comments

  predicate BlankText(t: seq<byte>) {
    forall i :: 0 <= i < |t| ==> t[i] == 32 || t[i] == 9 || t[i] == 10 || t[i] == 13
  }

  /** Where comments are not allowed, what may stand between tokens is spaces, tabs, line feeds and returns. */
  lemma WsMeans(t: seq<byte>)
    ensures WsOk(t, Standard) <==> BlankText(t)
  {
    if WsOk(t, Standard) {
      var gaps :| IsGaps(t, gaps, Standard);
      GapsAreBlank(gaps);
    }
    if BlankText(t) { BlanksAreGaps(t); }
  }

  lemma {:induction false} GapsAreBlank(gaps: seq<Gap>)
    requires GapsOk(gaps, Standard)
    ensures BlankText(GapsText(gaps))
  {
    if gaps != [] {
      assert GapOk(gaps[0], Standard);
      GapsAreBlank(gaps[1..]);
    }
  }

  lemma {:induction false} BlanksAreGaps(t: seq<byte>)
    requires BlankText(t)
    ensures WsOk(t, Standard)
  {
    if t == [] {
      NoGarbage(Standard);
    } else {
      BlanksAreGaps(t[1..]);
      WsCons(Blank(t[0]), t[1..], Standard);
      assert t == GapText(Blank(t[0])) + t[1..];
    }
  }

  /** Comments, where they are allowed, are those of C++. */
  lemma CommentMeans(text: seq<byte>)
    ensures GapOk(Line(text), Comments) <==> 10 !in text
    ensures GapText(Line(text)) == Ascii("//") + text + [10]
    ensures GapOk(Block(text), Comments) <==> forall i :: 0 <= i < |text| - 1 ==> !(text[i] == 42 && text[i + 1] == 47)
    ensures GapText(Block(text)) == Ascii("/*") + text + Ascii("*/")
  {
    var all := text + [42, 47];
    assert forall i :: 0 <= i < |text| ==> all[i] == text[i];
    assert all[|text|] == 42;
  }

  // ---------------------------------------------------------------- printed text

  /** The parts one after the other with a separator between. */
  ghost function Joined(parts: seq<seq<int>>, separator: seq<int>): seq<int> {
    if parts == [] then []
    else if |parts| == 1 then parts[0]
    else Joined(parts[..|parts| - 1], separator) + separator + parts[|parts| - 1]
  }

  lemma {:induction false} JoinedFirst(parts: seq<seq<int>>, separator: seq<int>)
    requires |parts| > 1
    ensures Joined(parts, separator) == parts[0] + separator + Joined(parts[1..], separator)
  {
    var n := |parts| - 1;
    var front := parts[..n];
    assert parts[1..][..n - 1] == front[1..];
    if n == 1 {
      assert front == [parts[0]] && parts[1..] == [parts[1]];
    } else {
      JoinedFirst(front, separator);
      assert Joined(parts[1..], separator) == Joined(front[1..], separator) + separator + parts[n];
    }
  }

  ghost function Texts(vs: seq<Json>): (r: seq<seq<byte>>)
    ensures |r| == |vs| && forall i :: 0 <= i < |vs| ==> r[i] == Text(vs[i])
  {
    seq(|vs|, i requires 0 <= i < |vs| => Text(vs[i]))
  }

  lemma {:induction false} ElementsJoined(vs: seq<Json>)
    ensures ElementsText(vs) == Joined(Texts(vs), Ascii(", "))
  {
    hide Text, Ascii;
    assert SEPARATOR == Ascii(", ") by { CommaSpace(); }
    if |vs| == 1 {
      assert Texts(vs) == [Text(vs[0])];
    } else if |vs| > 1 {
      ElementsJoined(vs[1..]);
      JoinedFirst(Texts(vs), SEPARATOR);
      assert Texts(vs)[1..] == Texts(vs[1..]);
    }
  }

  lemma CommaSpace()
    ensures Ascii(", ") == [44, 32] && Ascii(": ") == [58, 32]
  {}

  /** A list is printed in brackets, its elements separated by a comma and a space. */
  lemma ListText(vs: seq<Json>)
    ensures Text(Arr(vs)) == Ascii("[") + Joined(Texts(vs), Ascii(", ")) + Ascii("]")
  {
    ElementsJoined(vs);
  }

  ghost function MemberTexts(m: seq<(seq<byte>, Json)>): (r: seq<seq<int>>)
    ensures |r| == |m| && forall i :: 0 <= i < |m| ==> r[i] == Quoted(m[i].0) + Ascii(": ") + Text(m[i].1)
  {
    seq(|m|, i requires 0 <= i < |m| => Quoted(m[i].0) + Ascii(": ") + Text(m[i].1))
  }

  lemma {:induction false} MembersJoined(m: seq<(seq<byte>, Json)>)
    ensures MembersText(m) == Joined(MemberTexts(m), Ascii(", "))
  {
    hide Text, Ascii, Quoted;
    CommaSpace();
    if |m| == 1 {
      assert MemberTexts(m) == [MemberText(m[0])];
    } else if |m| > 1 {
      MembersJoined(m[1..]);
      JoinedFirst(MemberTexts(m), SEPARATOR);
      assert MemberTexts(m)[1..] == MemberTexts(m[1..]);
    }
  }

  /** An object is printed in braces: each key in quotes, a colon and a space, and the value. */
  lemma ObjectText(m: seq<(seq<byte>, Json)>)
    ensures Text(Obj(m)) == Ascii("{") + Joined(MemberTexts(m), Ascii(", ")) + Ascii("}")
  {
    MembersJoined(m);
  }

  /** The words as they are printed. */
  lemma WordText()
    ensures Text(Null) == Ascii("null") && Text(Bool(true)) == Ascii("true") && Text(Bool(false)) == Ascii("false")
  {}

  /** One character of a string as it is printed: short escapes, lower-case digits for the other control characters,
      and all other bytes as they are. */
  lemma EscapeText(b: byte)
    ensures b == 92 ==> EscapeByte(b) == Ascii("\\\\")
    ensures b == 34 ==> EscapeByte(b) == Ascii("\\\"")
    ensures b == 8 ==> EscapeByte(b) == Ascii("\\b")
    ensures b == 12 ==> EscapeByte(b) == Ascii("\\f")
    ensures b == 10 ==> EscapeByte(b) == Ascii("\\n")
    ensures b == 13 ==> EscapeByte(b) == Ascii("\\r")
    ensures b == 9 ==> EscapeByte(b) == Ascii("\\t")
    ensures b < 32 && b !in {8, 9, 10, 12, 13} ==>
      && |EscapeByte(b)| == 6 && EscapeByte(b)[..4] == Ascii("\\u00")
      && EscapeByte(b)[4] == 48 + b / 16
      && EscapeByte(b)[5] == if b % 16 < 10 then 48 + b % 16 else 87 + b % 16
    ensures b >= 32 && b != 92 && b != 34 ==> EscapeByte(b) == [b]
  {}

  /** A string is printed in quotes, one character after the other; the line and paragraph separators, three bytes
      each, are escaped by number. */
  lemma StringText(s: seq<byte>)
    ensures Quoted(s) == Ascii("\"") + Body(s) + Ascii("\"")
    ensures Body([]) == []
    ensures [226, 128, 168] <= s ==> Body(s) == Ascii("\\u2028") + Body(s[3..])
    ensures [226, 128, 169] <= s ==> Body(s) == Ascii("\\u2029") + Body(s[3..])
    ensures s != [] && !([226, 128, 168] <= s) && !([226, 128, 169] <= s) ==>
      Body(s) == EscapeByte(s[0]) + Body(s[1..])
  {
    hide EscapeByte, Body;
    BodyStep(s);
    SeparatorMeans(s);
  }

  lemma BodyStep(s: seq<byte>)
    ensures Body([]) == []
    ensures s != [] ==>
      Body(s) == if Separator(s) then EscapeSeparator(s) + Body(s[3..]) else EscapeByte(s[0]) + Body(s[1..])
  {
    hide EscapeByte, Separator, EscapeSeparator;
  }

  lemma SeparatorMeans(s: seq<byte>)
    ensures Separator(s) <==> [226, 128, 168] <= s || [226, 128, 169] <= s
    ensures [226, 128, 168] <= s ==> Separator(s) && EscapeSeparator(s) == Ascii("\\u2028")
    ensures [226, 128, 169] <= s ==> Separator(s) && EscapeSeparator(s) == Ascii("\\u2029")
  {
    if |s| >= 3 { assert s[..3] == [s[0], s[1], s[2]]; }
  }

  /** An int is printed as the shortest decimal number with its value, after a minus sign if it is negative. */
  lemma IntTextMeans(n: int)
    ensures n < 0 ==> IntText(n) == Ascii("-") + IntText(-n)
    ensures n >= 0 ==>
      && IntText(n) != [] && (forall i :: 0 <= i < |IntText(n)| ==> 48 <= IntText(n)[i] <= 57)
      && (IntText(n)[0] == 48 ==> |IntText(n)| == 1)
      && Positional(IntText(n)) == n
  {
    hide Decimal, DigitsValue, Positional;
    if n >= 0 {
      DecimalValue(n);
      DigitsMean(Decimal(n));
      DecimalZero();
    }
  }
}
