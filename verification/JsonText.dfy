/** The text of a value, and what reading it back gives. */
module JsonText {
  import opened JsonStrings
  import opened JsonSyntax

  // ---------------------------------------------------------------- strings

  function HexText(d: int): byte
    requires 0 <= d < 16
  {
    if d < 10 then 48 + d else 87 + d
  }

  /** One byte of a string. */
  function EscapeByte(b: byte): seq<byte> {
    if b == BACKSLASH then [BACKSLASH, BACKSLASH]
    else if b == QUOTE then [BACKSLASH, QUOTE]
    else if b == 8 then [BACKSLASH, 98]
    else if b == 12 then [BACKSLASH, 102]
    else if b == 10 then [BACKSLASH, 110]
    else if b == 13 then [BACKSLASH, 114]
    else if b == 9 then [BACKSLASH, 116]
    else if b <= 0x1F then [BACKSLASH, 117, 48, 48, HexText(b / 16), HexText(b % 16)]
    else [b]
  }

  /** Line and paragraph separator (U+2028, U+2029) are escaped too. */
  predicate Separator(s: seq<byte>) {
    |s| >= 3 && s[0] == 0xE2 && s[1] == 0x80 && (s[2] == 0xA8 || s[2] == 0xA9)
  }

  function EscapeSeparator(s: seq<byte>): seq<byte>
    requires Separator(s)
  {
    [BACKSLASH, 117, 50, 48, 50, if s[2] == 0xA8 then 56 else 57]
  }

  function Body(s: seq<byte>): seq<byte> {
    if s == [] then []
    else if Separator(s) then EscapeSeparator(s) + Body(s[3..])
    else EscapeByte(s[0]) + Body(s[1..])
  }

  function Quoted(s: seq<byte>): seq<byte> {
    [QUOTE] + Body(s) + [QUOTE]
  }

  /** The piece that the printed form of a byte is read as. */
  ghost function PieceOf(b: byte): Piece {
    if b <= 0x1F && b !in {8, 9, 10, 12, 13} then Escaped(b) else Raw(b)
  }

  ghost function SeparatorPiece(s: seq<byte>): Piece
    requires Separator(s)
  {
    Escaped(if s[2] == 0xA8 then 0x2028 else 0x2029)
  }

  /** The pieces that the printed form of a string consists of. */
  ghost function PiecesOf(s: seq<byte>): (r: seq<Piece>)
    ensures Units(r)
  {
    if s == [] then []
    else if Separator(s) then [SeparatorPiece(s)] + PiecesOf(s[3..])
    else [PieceOf(s[0])] + PiecesOf(s[1..])
  }

  lemma LexQuote(rest: seq<byte>)
    ensures Lex([QUOTE] + rest) == Done([], rest)
  {
    assert ([QUOTE] + rest)[1..] == rest;
  }

  lemma LexUnicode(e: seq<byte>, rest: seq<byte>)
    requires |e| == 6 && e[0] == BACKSLASH && e[1] == 117 && forall i :: 2 <= i < 6 ==> HexDigit(e[i])
    ensures Lex(e + rest) == Prepend(Escaped(Hex4(e[2..])), Lex(rest))
  {
    var t := e + rest;
    assert t[6..] == rest && t[2..6] == e[2..];
    assert forall i :: 2 <= i < 6 ==> t[i] == e[i];
  }

  lemma LexShort(b: byte, rest: seq<byte>)
    requires b != 117 && ShortEscape(b) >= 0
    ensures Lex([BACKSLASH, b] + rest) == Prepend(Raw(ShortEscape(b)), Lex(rest))
  {
    var t := [BACKSLASH, b] + rest;
    assert t[2..] == rest;
  }

  lemma LexPlain(b: byte, rest: seq<byte>)
    requires b > 0x1F && b != QUOTE && b != BACKSLASH
    ensures Lex([b] + rest) == Prepend(Raw(b), Lex(rest))
  {
    assert ([b] + rest)[1..] == rest;
  }

  lemma LexByte(b: byte, rest: seq<byte>)
    ensures Lex(EscapeByte(b) + rest) == Prepend(PieceOf(b), Lex(rest))
  {
    hide Lex;
    var e := EscapeByte(b);
    if |e| == 6 { LexUnicode(e, rest); }
    else if |e| == 2 { LexShort(e[1], rest); }
    else { LexPlain(b, rest); }
  }

  lemma LexSeparator(s: seq<byte>, rest: seq<byte>)
    requires Separator(s)
    ensures Lex(EscapeSeparator(s) + rest) == Prepend(SeparatorPiece(s), Lex(rest))
  {
    hide Lex;
    LexUnicode(EscapeSeparator(s), rest);
  }

  lemma SeparatorOctets(s: seq<byte>)
    requires Separator(s)
    ensures |s| >= 3 && Point(SeparatorPiece(s)) && !High(SeparatorPiece(s).code) && Octets(SeparatorPiece(s)) == s[..3]
  {}

  lemma {:induction false} LexBody(s: seq<byte>, rest: seq<byte>)
    ensures Lex(Body(s) + ([QUOTE] + rest)) == Done(PiecesOf(s), rest)
  {
    hide Lex, EscapeByte, Separator, EscapeSeparator, PieceOf, SeparatorPiece;
    var tail := [QUOTE] + rest;
    LexQuote(rest);
    if s == [] {
      assert Body(s) + tail == tail;
    } else if Separator(s) {
      SeparatorOctets(s);
      LexBody(s[3..], rest);
      LexSeparator(s, Body(s[3..]) + tail);
      assert Body(s) + tail == EscapeSeparator(s) + (Body(s[3..]) + tail);
    } else {
      LexBody(s[1..], rest);
      LexByte(s[0], Body(s[1..]) + tail);
      assert Body(s) + tail == EscapeByte(s[0]) + (Body(s[1..]) + tail);
    }
  }

  lemma PairPlain(p: Piece, rest: seq<Piece>)
    requires Units([p] + rest) && Units(rest) && (p.Escaped? ==> !High(p.code)) && Point(p)
    ensures Decoded([p] + rest) == Octets(p) + Decoded(rest)
  {
    var ps := [p] + rest;
    assert ps[1..] == rest && ps[0] == p;
    assert Paired(ps) == [p] + Paired(rest);
    Front(p, Paired(rest));
  }

  /** No printed string contains a surrogate. */
  lemma {:induction false} DecodedPieces(s: seq<byte>)
    ensures Decoded(PiecesOf(s)) == s
  {
    hide Decoded, Separator, SeparatorPiece;
    if s == [] {
      assert PiecesOf(s) == [];
      DecodedNothing();
    } else if Separator(s) {
      SeparatorOctets(s);
      DecodedPieces(s[3..]);
      PairPlain(SeparatorPiece(s), PiecesOf(s[3..]));
      assert s == s[..3] + s[3..];
    } else {
      DecodedPieces(s[1..]);
      PairPlain(PieceOf(s[0]), PiecesOf(s[1..]));
      assert s == [s[0]] + s[1..];
    }
  }

  lemma DecodedNothing()
    ensures Decoded([]) == []
  {}

  /** Printing any byte string and reading it back gives the same string. */
  lemma StringRoundTrip(s: seq<byte>, rest: seq<byte>)
    ensures (Quoted(s) + rest)[0] == QUOTE
    ensures var o := Lex((Quoted(s) + rest)[1..]);
            o.Done? && Decoded(o.value) == s && o.rest == rest
  {
    hide Lex, Body, Decoded, PiecesOf;
    LexBody(s, rest);
    DecodedPieces(s);
    assert (Quoted(s) + rest)[1..] == Body(s) + ([QUOTE] + rest);
  }

  // ---------------------------------------------------------------- numbers

  function Decimal(n: nat): (t: seq<byte>)
    ensures t != [] && AllDigits(t)
  {
    if n < 10 then [48 + n] else Decimal(n / 10) + [48 + n % 10]
  }

  function IntText(n: int): seq<byte> {
    if n < 0 then [MINUS] + Decimal(-n) else Decimal(n)
  }

  lemma {:induction false} DecimalValue(n: nat)
    ensures DigitsValue(Decimal(n)) == n
    ensures Decimal(n)[0] == 48 <==> n == 0
  {
    if n >= 10 {
      DecimalValue(n / 10);
      var t := Decimal(n);
      assert t[..|t| - 1] == Decimal(n / 10);
    } else {
      assert Decimal(n)[..0] == [];
      assert DigitsValue(Decimal(n)) == DigitsValue(Decimal(n)[..0]) * 10 + n;
    }
  }

  lemma {:induction false} DigitsOf(t: seq<byte>, rest: seq<byte>)
    requires AllDigits(t) && !Digit(Peek(rest))
    ensures Digits(t + rest) == |t|
  {
    if t == [] {
      assert t + rest == rest;
    } else {
      DigitsOf(t[1..], rest);
      assert (t + rest)[1..] == t[1..] + rest;
    }
  }

  /** Text after a number that does not continue it. */
  predicate EndsNumber(rest: seq<byte>) {
    !Digit(Peek(rest)) && Peek(rest) != POINT && Peek(rest) != 101 && Peek(rest) != 69
  }

  lemma DecimalZero()
    ensures Decimal(0) == [48]
  {}

  lemma ScanInt(n: int, rest: seq<byte>)
    requires EndsNumber(rest)
    ensures ScanNumber(IntText(n) + rest) == Done(Numeral(n < 0, Decimal(if n < 0 then -n else n), [], false, []), rest)
  {
    hide Digits, Decimal, DigitsValue;
    var d := Decimal(if n < 0 then -n else n);
    var t := IntText(n) + rest;
    var u := if n < 0 then t[1..] else t;
    assert u == d + rest;
    DigitsOf(d, rest);
    DecimalValue(if n < 0 then -n else n);
    DecimalZero();
    assert u[|d|..] == rest && u[..|d|] == d;
  }

  // ---------------------------------------------------------------- values

  /** What the parser can hand back: no floating-point numbers, ints of 32 bits, keys in order. */
  ghost predicate Printable(v: Json) {
    match v
    case Double(_) => false
    case Int(n) => -0x8000_0000 <= n < 0x8000_0000
    case Arr(vs) => forall i :: 0 <= i < |vs| ==> Printable(vs[i])
    case Obj(m) => Sorted(m) && forall i :: 0 <= i < |m| ==> Printable(m[i].1)
    case _ => true
  }

  ghost predicate Sorted(m: seq<(seq<byte>, Json)>) {
    forall i, j :: 0 <= i < j < |m| ==> Less(m[i].0, m[j].0)
  }

  /** The text of a value. Floating-point numbers have no text here. */
  function Text(v: Json): seq<byte>
    decreases v, 0
  {
    match v
    case Null => NULL_TEXT
    case Bool(b) => if b then TRUE_TEXT else FALSE_TEXT
    case Int(n) => IntText(n)
    case Double(_) => []
    case Str(s) => Quoted(s)
    case Arr(vs) => [OPEN_LIST] + ElementsText(vs) + [CLOSE_LIST]
    case Obj(m) => [OPEN_OBJECT] + MembersText(m) + [CLOSE_OBJECT]
  }

  const SEPARATOR: seq<byte> := [COMMA, 32]

  function ElementsText(vs: seq<Json>): seq<byte>
    decreases vs, 1
  {
    if vs == [] then []
    else if |vs| == 1 then Text(vs[0])
    else Text(vs[0]) + SEPARATOR + ElementsText(vs[1..])
  }

  function MemberText(kv: (seq<byte>, Json)): seq<byte>
    decreases kv, 1
  {
    Quoted(kv.0) + [COLON, 32] + Text(kv.1)
  }

  function MembersText(m: seq<(seq<byte>, Json)>): seq<byte>
    decreases m, 1
  {
    if m == [] then []
    else if |m| == 1 then MemberText(m[0])
    else MemberText(m[0]) + SEPARATOR + MembersText(m[1..])
  }

  /** How deep values are nested: an empty list or object adds no level. */
  function Depth(v: Json): nat
    decreases v, 0
  {
    match v
    case Arr(vs) => if vs == [] then 0 else 1 + ElementsDepth(vs)
    case Obj(m) => if m == [] then 0 else 1 + MembersDepth(m)
    case _ => 0
  }

  function Max(a: nat, b: nat): nat { if a < b then b else a }

  function ElementsDepth(vs: seq<Json>): nat
    decreases vs, 1
  {
    if vs == [] then 0 else Max(Depth(vs[0]), ElementsDepth(vs[1..]))
  }

  function MemberDepth(kv: (seq<byte>, Json)): nat
    decreases kv, 1
  {
    Depth(kv.1)
  }

  function MembersDepth(m: seq<(seq<byte>, Json)>): nat
    decreases m, 1
  {
    if m == [] then 0 else Max(MemberDepth(m[0]), MembersDepth(m[1..]))
  }
}
