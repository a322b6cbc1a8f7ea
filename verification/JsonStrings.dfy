/** JSON strings: escape sequences, surrogate pairs and UTF-8. */
module JsonStrings {
  type byte = b: int | 0 <= b < 256

  const QUOTE: byte := 34
  const SLASH: byte := 47
  const BACKSLASH: byte := 92

  // ---------------------------------------------------------------- UTF-8

  /** encode_utf8. A negative code point means none. */
  function EncodeUtf8(pt: int): (r: seq<byte>)
    requires pt < 0x110000
    ensures |r| == 0 <==> pt < 0
  {
    if pt < 0 then []
    else if pt < 0x80 then [pt]
    else if pt < 0x800 then [0xC0 + pt / 0x40, 0x80 + pt % 0x40]
    else if pt < 0x10000 then [0xE0 + pt / 0x1000, 0x80 + pt / 0x40 % 0x40, 0x80 + pt % 0x40]
    else [0xF0 + pt / 0x40000, 0x80 + pt / 0x1000 % 0x40, 0x80 + pt / 0x40 % 0x40, 0x80 + pt % 0x40]
  }

  predicate Surrogate(pt: int) { 0xD800 <= pt <= 0xDFFF }
  predicate Scalar(pt: int) { 0 <= pt < 0x110000 && !Surrogate(pt) }
  predicate Tail(b: int) { 0x80 <= b <= 0xBF }

  /** The number made of leading bits and the free bits of one more octet. */
  function More(bits: int, octet: int): int {
    bits * 0x40 + (octet - 0x80)
  }

  /** The table of section 3 of RFC 3629: which octets stand for a character number, the free bits of the
      octets put together being the number, and the number being in the range of its row. */
  predicate IsUtf8(pt: int, octets: seq<int>) {
    match |octets|
    case 1 => 0 <= octets[0] <= 0x7F && pt == octets[0]
    case 2 => 0xC0 <= octets[0] <= 0xDF && Tail(octets[1])
              && pt == More(octets[0] - 0xC0, octets[1]) && 0x80 <= pt <= 0x7FF
    case 3 => 0xE0 <= octets[0] <= 0xEF && Tail(octets[1]) && Tail(octets[2])
              && pt == More(More(octets[0] - 0xE0, octets[1]), octets[2]) && 0x800 <= pt <= 0xFFFF
    case 4 => 0xF0 <= octets[0] <= 0xF7 && Tail(octets[1]) && Tail(octets[2]) && Tail(octets[3])
              && pt == More(More(More(octets[0] - 0xF0, octets[1]), octets[2]), octets[3]) && 0x10000 <= pt <= 0x10FFFF
    case _ => false
  }

  lemma MoreIs(pt: int, bits: int, octet: int)
    ensures Tail(octet) && pt == More(bits, octet) <==> bits == pt / 0x40 && octet == 0x80 + pt % 0x40
  {}

  /** The encoder agrees with the standard: it writes the octets of the number, and there are no others. */
  lemma Utf8Agrees(pt: int, octets: seq<int>)
    requires 0 <= pt < 0x110000
    ensures IsUtf8(pt, octets) <==> octets == EncodeUtf8(pt)
  {
    var one, two := pt / 0x40, pt / 0x40 / 0x40;
    hide More;
    if |octets| == 2 {
      MoreIs(pt, octets[0] - 0xC0, octets[1]);
    } else if |octets| == 3 {
      assert pt / 0x1000 == two;
      MoreIs(pt, More(octets[0] - 0xE0, octets[1]), octets[2]);
      MoreIs(one, octets[0] - 0xE0, octets[1]);
    } else if |octets| == 4 {
      assert pt / 0x1000 == two && pt / 0x40000 == two / 0x40;
      MoreIs(pt, More(More(octets[0] - 0xF0, octets[1]), octets[2]), octets[3]);
      MoreIs(one, More(octets[0] - 0xF0, octets[1]), octets[2]);
      MoreIs(two, octets[0] - 0xF0, octets[1]);
    }
  }

  /** No encoding is a proper prefix of another: text in UTF-8 can be cut up in one way only. */
  lemma Utf8PrefixFree(a: int, b: int, resta: seq<byte>, restb: seq<byte>)
    requires 0 <= a < 0x110000 && 0 <= b < 0x110000
    requires EncodeUtf8(a) + resta == EncodeUtf8(b) + restb
    ensures a == b && resta == restb
  {
    var s := EncodeUtf8(a) + resta;
    Utf8Agrees(a, EncodeUtf8(a));
    Utf8Agrees(b, EncodeUtf8(b));
    assert s[0] == EncodeUtf8(a)[0] == EncodeUtf8(b)[0];
    var n := |EncodeUtf8(a)|;
    assert n == |EncodeUtf8(b)|;
    assert s[..n] == EncodeUtf8(a) && s[..n] == EncodeUtf8(b);
    assert s[n..] == resta && s[n..] == restb;
  }

  function Utf8(pts: seq<int>): seq<byte>
    requires forall i :: 0 <= i < |pts| ==> 0 <= pts[i] < 0x110000
  {
    if pts == [] then [] else EncodeUtf8(pts[0]) + Utf8(pts[1..])
  }

  /** encode_utf8 is injective on whole texts. */
  lemma {:induction false} Utf8Injective(a: seq<int>, b: seq<int>)
    requires forall i :: 0 <= i < |a| ==> 0 <= a[i] < 0x110000
    requires forall i :: 0 <= i < |b| ==> 0 <= b[i] < 0x110000
    requires Utf8(a) == Utf8(b)
    ensures a == b
  {
    if a != [] && b != [] {
      Utf8PrefixFree(a[0], b[0], Utf8(a[1..]), Utf8(b[1..]));
      Utf8Injective(a[1..], b[1..]);
      assert a == [a[0]] + a[1..] && b == [b[0]] + b[1..];
    }
  }

  // ---------------------------------------------------------------- escapes

  /** A piece of a string between its quotes: a byte that stands for itself (as it is, or by a short escape),
      or a code unit from a \u escape. */
  datatype Piece = Raw(b: byte) | Escaped(code: int)

  predicate High(pt: int) { 0xD800 <= pt <= 0xDBFF }
  predicate Low(pt: int) { 0xDC00 <= pt <= 0xDFFF }

  function Combine(high: int, low: int): (pt: int)
    requires High(high) && Low(low)
    ensures 0x10000 <= pt < 0x110000
  {
    (high - 0xD800) * 0x400 + (low - 0xDC00) + 0x10000
  }

  /** Code units are sixteen bits wide. */
  predicate Units(ps: seq<Piece>) {
    forall i :: 0 <= i < |ps| && ps[i].Escaped? ==> 0 <= ps[i].code < 0x10000
  }

  predicate Point(p: Piece) { p.Escaped? ==> 0 <= p.code < 0x110000 }

  /** Raw bytes and code points. */
  predicate Points(ps: seq<Piece>) {
    forall i :: 0 <= i < |ps| ==> Point(ps[i])
  }

  /** Pairs every high surrogate with a low surrogate that follows it immediately. */
  function Paired(ps: seq<Piece>): (r: seq<Piece>)
    requires Units(ps)
    ensures Points(r)
  {
    if ps == [] then []
    else if |ps| > 1 && ps[0].Escaped? && ps[1].Escaped? && High(ps[0].code) && Low(ps[1].code)
    then [Escaped(Combine(ps[0].code, ps[1].code))] + Paired(ps[2..])
    else [ps[0]] + Paired(ps[1..])
  }

  function Octets(p: Piece): seq<byte>
    requires Point(p)
  {
    match p
    case Raw(b) => [b]
    case Escaped(pt) => EncodeUtf8(pt)
  }

  function Encoded(ps: seq<Piece>): seq<byte>
    requires Points(ps)
  {
    if ps == [] then [] else Octets(ps[0]) + Encoded(ps[1..])
  }

  lemma Front(p: Piece, ps: seq<Piece>)
    requires Point(p) && Points(ps)
    ensures Points([p] + ps) && Encoded([p] + ps) == Octets(p) + Encoded(ps)
  {
    assert ([p] + ps)[1..] == ps;
  }

  /** The bytes a string stands for: pair all surrogates, then encode. */
  function Decoded(ps: seq<Piece>): seq<byte>
    requires Units(ps)
  {
    Encoded(Paired(ps))
  }

  /** The code units of a character by section 2.1 of RFC 2781. */
  function Utf16(pt: int): (r: seq<Piece>)
    requires Scalar(pt)
    ensures Units(r)
  {
    if pt < 0x10000 then [Escaped(pt)]
    else [Escaped(0xD800 + (pt - 0x10000) / 0x400), Escaped(0xDC00 + (pt - 0x10000) % 0x400)]
  }

  function AllUtf16(pts: seq<int>): (r: seq<Piece>)
    requires forall i :: 0 <= i < |pts| ==> Scalar(pts[i])
    ensures Units(r)
  {
    if pts == [] then [] else Utf16(pts[0]) + AllUtf16(pts[1..])
  }

  /** Pairing inverts UTF-16: any text written wholly in escapes is read back as its UTF-8. */
  lemma {:induction false} PairingInvertsUtf16(pts: seq<int>)
    requires forall i :: 0 <= i < |pts| ==> Scalar(pts[i])
    ensures Decoded(AllUtf16(pts)) == Utf8(pts)
  {
    if pts != [] {
      var pt, rest := pts[0], AllUtf16(pts[1..]);
      PairingInvertsUtf16(pts[1..]);
      var ps := Utf16(pt) + rest;
      if pt < 0x10000 {
        assert ps[1..] == rest;
      } else {
        assert ps[2..] == rest && Combine(ps[0].code, ps[1].code) == pt;
      }
      assert Paired(ps) == [Escaped(pt)] + Paired(rest);
      Front(Escaped(pt), Paired(rest));
    }
  }

  // ---------------------------------------------------------------- one code unit held back

  /** The code unit that is held back, if any. */
  function Held(last: int): (r: seq<Piece>)
    ensures last < 0x10000 ==> Units(r)
  {
    if last < 0 then [] else [Escaped(last)]
  }

  /** A byte that stands for itself releases what is held back. */
  lemma HoldRaw(last: int, b: byte, rest: seq<Piece>)
    requires last < 0x10000 && Units(rest)
    ensures Units(Held(last) + [Raw(b)] + rest)
    ensures Decoded(Held(last) + [Raw(b)] + rest) == EncodeUtf8(last) + [b] + Decoded(rest)
  {
    var ps := [Raw(b)] + rest;
    assert ps[1..] == rest;
    Front(Raw(b), Paired(rest));
    assert Paired(ps) == [Raw(b)] + Paired(rest);
    if last >= 0 { ReleaseHeld(last, ps); }
    assert Held(last) + [Raw(b)] + rest == Held(last) + ps;
  }

  /** A held code unit that does not pair with what follows stands alone. */
  lemma ReleaseHeld(last: int, ps: seq<Piece>)
    requires 0 <= last < 0x10000 && Units(ps)
    requires ps == [] || ps[0].Raw? || !(High(last) && Low(ps[0].code))
    ensures Units(Held(last) + ps) && Decoded(Held(last) + ps) == EncodeUtf8(last) + Decoded(ps)
  {
    var all := Held(last) + ps;
    assert all[1..] == ps;
    assert Paired(all) == [Escaped(last)] + Paired(ps);
    Front(Escaped(last), Paired(ps));
  }

  /** A low surrogate after a held high one completes a character. */
  lemma HoldLow(last: int, code: int, rest: seq<Piece>)
    requires High(last) && Low(code) && Units(rest)
    ensures Units(Held(last) + [Escaped(code)] + rest)
    ensures Decoded(Held(last) + [Escaped(code)] + rest) == EncodeUtf8(Combine(last, code)) + Decoded(rest)
  {
    var all := Held(last) + [Escaped(code)] + rest;
    assert all[2..] == rest;
    assert Paired(all) == [Escaped(Combine(last, code))] + Paired(rest);
    Front(Escaped(Combine(last, code)), Paired(rest));
  }

  /** Any other code unit is held back in its turn. */
  lemma HoldNext(last: int, code: int, rest: seq<Piece>)
    requires last < 0x10000 && 0 <= code < 0x10000 && !(High(last) && Low(code)) && Units(rest)
    ensures Units(Held(last) + [Escaped(code)] + rest)
    ensures Decoded(Held(last) + [Escaped(code)] + rest) == EncodeUtf8(last) + Decoded(Held(code) + rest)
  {
    var ps := [Escaped(code)] + rest;
    assert Held(last) + [Escaped(code)] + rest == Held(last) + ps;
    if last >= 0 { ReleaseHeld(last, ps); } else { assert Held(last) + ps == ps; }
  }
}
