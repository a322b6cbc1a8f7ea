/** Without the comment extension the parser accepts exactly the texts of the grammar, up to the nesting limit,
    and gives each its value. */
module JsonAccepts {
  import opened JsonStrings
  import opened JsonSyntax
  import opened JsonGarbage
  import opened JsonGrammar
  import T = JsonText

  // ---------------------------------------------------------------- white space

  lemma TokenAfter(ws: Ws, t: seq<byte>, strategy: Strategy)
    requires WsOk(ws, strategy) && Starts(t, strategy)
    ensures Token(ws + t, strategy) == Done(t[0], t)
  {
    hide SkipGarbage, WsOk;
    SkipWs(ws, t, strategy);
  }

  lemma SplitToken(t: seq<byte>, strategy: Strategy) returns (ws: Ws)
    requires Token(t, strategy).Done?
    ensures WsOk(ws, strategy) && t == ws + Token(t, strategy).rest && Starts(Token(t, strategy).rest, strategy)
  {
    hide SkipGarbage, WsOk;
    ws := SplitGarbage(t, strategy);
  }

  // ---------------------------------------------------------------- strings

  lemma LexGlyph(g: Glyph, rest: seq<byte>)
    requires GlyphOk(g)
    ensures Lex(GlyphText(g) + rest) == Prepend(GlyphPiece(g), Lex(rest))
  {
    hide Lex;
    match g
    case Plain(b) => T.LexPlain(b, rest);
    case Short(e) => T.LexShort(e, rest);
    case Unicode(hex) =>
      var e := GlyphText(g);
      assert e[2..] == hex;
      T.LexUnicode(e, rest);
  }

  lemma {:induction false} LexGlyphs(gs: seq<Glyph>, rest: seq<byte>)
    requires GlyphsOk(gs)
    ensures Lex(GlyphsText(gs) + ([QUOTE] + rest)) == Done(Pieces(gs), rest)
  {
    hide Lex, GlyphOk, GlyphText, GlyphPiece;
    var tail := [QUOTE] + rest;
    if gs == [] {
      T.LexQuote(rest);
      assert GlyphsText(gs) + tail == tail;
    } else {
      LexGlyphs(gs[1..], rest);
      LexGlyph(gs[0], GlyphsText(gs[1..]) + tail);
      assert GlyphsText(gs) + tail == GlyphText(gs[0]) + (GlyphsText(gs[1..]) + tail);
    }
  }

  /** A whole string is read with its value. */
  lemma LexString(gs: seq<Glyph>, rest: seq<byte>)
    requires GlyphsOk(gs)
    ensures (StringText(gs) + rest)[0] == QUOTE
    ensures var o := Lex((StringText(gs) + rest)[1..]);
            o.Done? && Decoded(o.value) == StringValue(gs) && o.rest == rest
  {
    hide Lex, GlyphsText, Pieces, Decoded;
    LexGlyphs(gs, rest);
    assert (StringText(gs) + rest)[1..] == GlyphsText(gs) + ([QUOTE] + rest);
  }

  lemma FirstGlyph(t: seq<byte>) returns (g: Glyph, n: nat)
    requires Lex(t).Done? && t[0] != QUOTE
    ensures GlyphOk(g) && n <= |t| && n > 0 && t == GlyphText(g) + t[n..]
    ensures Lex(t) == Prepend(GlyphPiece(g), Lex(t[n..]))
  {
    if t[0] != BACKSLASH {
      g, n := Plain(t[0]), 1;
    } else if t[1] == 117 {
      g, n := Unicode(t[2..6]), 6;
      assert t == [t[0], t[1]] + t[2..6] + t[6..];
    } else {
      g, n := Short(t[1]), 2;
      assert t == [t[0], t[1]] + t[2..];
    }
  }

  lemma LexEnds(t: seq<byte>)
    requires Lex(t).Done?
    ensures t != [] && (t[0] == QUOTE ==> Lex(t) == Done([], t[1..]) && t == GlyphsText([]) + ([QUOTE] + t[1..]))
    ensures Pieces([]) == []
  {
    assert t == [t[0]] + t[1..];
  }

  lemma {:induction false} UnlexGlyphs(t: seq<byte>) returns (gs: seq<Glyph>)
    requires Lex(t).Done?
    ensures GlyphsOk(gs) && t == GlyphsText(gs) + ([QUOTE] + Lex(t).rest) && Pieces(gs) == Lex(t).value
    decreases |t|
  {
    hide Lex, GlyphText, GlyphOk, GlyphPiece, GlyphsText, Pieces;
    LexEnds(t);
    if t[0] == QUOTE {
      gs := [];
    } else {
      var g, n := FirstGlyph(t);
      var more := UnlexGlyphs(t[n..]);
      gs := [g] + more;
      GlyphsCons(g, more);
      Reassociate(GlyphText(g), GlyphsText(more), [QUOTE] + Lex(t).rest);
    }
  }

  lemma Reassociate(a: seq<byte>, b: seq<byte>, c: seq<byte>)
    ensures a + (b + c) == (a + b) + c
  {}

  lemma GlyphsCons(g: Glyph, gs: seq<Glyph>)
    requires GlyphOk(g) && GlyphsOk(gs)
    ensures GlyphsOk([g] + gs)
    ensures GlyphsText([g] + gs) == GlyphText(g) + GlyphsText(gs)
    ensures Pieces([g] + gs) == [GlyphPiece(g)] + Pieces(gs)
  {
    hide GlyphText, GlyphOk, GlyphPiece;
    assert ([g] + gs)[1..] == gs;
  }

  /** A string that was accepted is one of the grammar. */
  lemma UnlexString(u: seq<byte>) returns (gs: seq<Glyph>)
    requires u != [] && u[0] == QUOTE && Lex(u[1..]).Done?
    ensures GlyphsOk(gs) && u == StringText(gs) + Lex(u[1..]).rest && StringValue(gs) == Decoded(Lex(u[1..]).value)
  {
    hide Lex, Decoded;
    gs := UnlexGlyphs(u[1..]);
    assert u == [QUOTE] + u[1..];
    assert u == [QUOTE] + GlyphsText(gs) + [QUOTE] + Lex(u[1..]).rest;
  }

  // ---------------------------------------------------------------- numbers

  lemma ScanFrac(n: Number, rest: seq<byte>)
    requires NumberOk(n) && !Digit(Peek(rest)) && (n.frac == [] ==> Peek(rest) != POINT)
    ensures ScanFraction(FracText(n) + rest) == Done(n.frac, rest)
  {
    var t := FracText(n) + rest;
    if n.frac == [] {
      assert t == rest;
    } else {
      assert t[1..] == n.frac + rest;
      T.DigitsOf(n.frac, rest);
      assert (n.frac + rest)[..|n.frac|] == n.frac && (n.frac + rest)[|n.frac|..] == rest;
    }
  }

  lemma ScanExp(n: Number, rest: seq<byte>)
    requires NumberOk(n) && !Digit(Peek(rest)) && (n.exp == [] ==> Peek(rest) != 101 && Peek(rest) != 69)
    ensures ScanExponent(ExpText(n) + rest) == Done((n.sign == [MINUS], n.exp), rest)
  {
    hide Digits;
    var t := ExpText(n) + rest;
    if n.exp == [] {
      assert t == rest;
    } else {
      assert t == [n.letter] + (n.sign + (n.exp + rest));
      assert t[1..] == n.sign + (n.exp + rest);
      T.DigitsOf(n.exp, rest);
      assert (n.exp + rest)[..|n.exp|] == n.exp && (n.exp + rest)[|n.exp|..] == rest;
      assert Digit(n.exp[0]) && (n.exp + rest)[0] == n.exp[0];
      if n.sign == [] {
        assert t[1..] == n.exp + rest;
      } else {
        assert t[2..] == n.exp + rest && t[1] == n.sign[0];
      }
    }
  }

  /** The text of a number: its sign, its integer part, and what comes after. */
  lemma NumberTextParts(n: Number, rest: seq<byte>)
    ensures var after := FracText(n) + (ExpText(n) + rest);
      var u := n.whole + after;
      && NumberText(n) + rest == (if n.neg then [MINUS] else []) + u
      && u[..|n.whole|] == n.whole && u[|n.whole|..] == after
  {
    hide FracText, ExpText;
    var f, e := FracText(n), ExpText(n);
    assert n.whole + (f + e) + rest == n.whole + (f + (e + rest));
  }

  lemma ScanTree(n: Number, rest: seq<byte>)
    requires NumberOk(n) && T.EndsNumber(rest)
    ensures ScanNumber(NumberText(n) + rest) == Done(AsNumeral(n), rest)
  {
    hide Digits, ScanFraction, ScanExponent, NumberText;
    var after := FracText(n) + (ExpText(n) + rest);
    var u := n.whole + after;
    var t := NumberText(n) + rest;
    NumberTextParts(n, rest);
    assert n.neg ==> t[1..] == u;
    assert !n.neg ==> t == u;
    T.DigitsOf(n.whole, after);
    assert Digit(n.whole[0]) && u[0] == n.whole[0];
    assert ExpText(n) == [] ==> ExpText(n) + rest == rest;
    ScanFrac(n, ExpText(n) + rest);
    ScanExp(n, rest);
  }

  /** An exponent that was accepted: its sign and digits. */
  lemma UnscanExponent(t: seq<byte>) returns (letter: byte, sign: seq<byte>)
    requires ScanExponent(t).Done?
    ensures letter in {101, 69} && sign in {[], [PLUS], [MINUS]}
    ensures var o := ScanExponent(t);
      && o.value.0 == (sign == [MINUS])
      && (o.value.1 == [] ==> letter == 101 && sign == [] && t == o.rest)
      && (o.value.1 != [] ==> t == [letter] + (sign + (o.value.1 + o.rest)))
  {
    hide Digits, AllDigits, ScanExponent;
    ExponentParts(t);
    letter, sign := 101, [];
    if Peek(t) == 101 || Peek(t) == 69 {
      letter := t[0];
      var signed := Peek(t[1..]) == PLUS || Peek(t[1..]) == MINUS;
      var u := if signed then t[2..] else t[1..];
      TakeDrop(u, Digits(u));
      if signed { sign := [t[1]]; }
      assert t == [t[0]] + (sign + u);
    }
  }

  lemma ExponentParts(t: seq<byte>)
    requires ScanExponent(t).Done?
    ensures Peek(t) != 101 && Peek(t) != 69 ==> ScanExponent(t) == Done((false, []), t)
    ensures Peek(t) == 101 || Peek(t) == 69 ==>
      var u := if Peek(t[1..]) == PLUS || Peek(t[1..]) == MINUS then t[2..] else t[1..];
      Digits(u) > 0 && ScanExponent(t) == Done((Peek(t[1..]) == MINUS, u[..Digits(u)]), u[Digits(u)..])
  {
    hide Digits, AllDigits;
  }

  lemma TakeDrop(u: seq<byte>, n: nat)
    requires n <= |u|
    ensures u == u[..n] + u[n..]
  {}

  lemma UnscanFraction(t: seq<byte>)
    requires ScanFraction(t).Done?
    ensures var o := ScanFraction(t); if o.value == [] then t == o.rest else t == [POINT] + o.value + o.rest
  {
    hide Digits;
    if Peek(t) == POINT { assert t == [t[0]] + t[1..]; }
  }

  /** What is left of an accepted number after its integer part. */
  lemma UnscanAfter(neg: bool, whole: seq<byte>, t: seq<byte>) returns (n: Number)
    requires whole != [] && AllDigits(whole) && (whole[0] == 48 ==> |whole| == 1) && ScanAfter(neg, whole, t).Done?
    ensures NumberOk(n) && n.neg == neg && n.whole == whole
    ensures var o := ScanAfter(neg, whole, t); t == (FracText(n) + ExpText(n)) + o.rest && AsNumeral(n) == o.value
  {
    hide Digits, ScanFraction, ScanExponent;
    var frac := ScanFraction(t);
    UnscanFraction(t);
    var letter, sign := UnscanExponent(frac.rest);
    var exp := ScanExponent(frac.rest);
    n := Number(neg, whole, frac.value, letter, sign, exp.value.1);
    if exp.value.1 != [] {
      assert ExpText(n) + exp.rest == [letter] + (sign + (exp.value.1 + exp.rest));
    }
    assert frac.rest == ExpText(n) + exp.rest;
    Reassociate(FracText(n), ExpText(n), exp.rest);
  }

  /** A number that was accepted is one of the grammar. */
  lemma UnscanNumber(t: seq<byte>) returns (n: Number)
    requires ScanNumber(t).Done?
    ensures NumberOk(n) && t == NumberText(n) + ScanNumber(t).rest && AsNumeral(n) == ScanNumber(t).value
  {
    hide Digits, ScanAfter, ScanNumber, FracText, ExpText, AllDigits, NumberOk;
    NumberParts(t);
    var neg := Peek(t) == MINUS;
    var sign := if neg then [MINUS] else [];
    var u := if neg then t[1..] else t;
    var k := Digits(u);
    TakeDrop(u, k);
    n := UnscanAfter(neg, u[..k], u[k..]);
    var rest := ScanNumber(t).rest;
    assert t == sign + u;
    Reassociate(u[..k], FracText(n) + ExpText(n), rest);
    Reassociate(sign, u[..k] + (FracText(n) + ExpText(n)), rest);
  }

  lemma NumberParts(t: seq<byte>)
    requires ScanNumber(t).Done?
    ensures var u := if Peek(t) == MINUS then t[1..] else t;
            var k := Digits(u);
            && k > 0 && AllDigits(u[..k]) && (u[..k][0] == 48 ==> k == 1)
            && ScanNumber(t) == ScanAfter(Peek(t) == MINUS, u[..k], u[k..])
  {
    hide Digits, ScanAfter;
    DigitsAre(if Peek(t) == MINUS then t[1..] else t);
  }

  // ---------------------------------------------------------------- every text of the grammar is accepted

  lemma TreeStarts(t: Tree, strategy: Strategy)
    requires TreeOk(t, strategy)
    ensures Starts(TreeText(t), strategy)
  {
    match t
    case Num(n) =>
      assert Digit(n.whole[0]) && (n.whole + (FracText(n) + ExpText(n)))[0] == n.whole[0];
    case _ =>
  }

  lemma StartsWith(t: seq<byte>, rest: seq<byte>, strategy: Strategy)
    requires Starts(t, strategy)
    ensures Starts(t + rest, strategy) && (t + rest)[0] == t[0]
  {}

  ghost predicate Follows(t: Tree, rest: seq<byte>) { t.Num? ==> T.EndsNumber(rest) }

  /** What follows an item: white space and then a comma or a closing bracket. */
  lemma WsEnds(ws: Ws, rest: seq<byte>, strategy: Strategy)
    requires WsOk(ws, strategy) && T.EndsNumber(rest)
    ensures T.EndsNumber(ws + rest)
  {
    if ws == [] {
      assert ws + rest == rest;
    } else {
      WsHead(ws, strategy);
      assert (ws + rest)[0] == ws[0];
    }
  }

  lemma {:induction false} AcceptTree(t: Tree, ws: Ws, rest: seq<byte>, depth: nat, strategy: Strategy)
    requires TreeOk(t, strategy) && WsOk(ws, strategy) && Follows(t, rest)
    ensures ParseValue(ws + (TreeText(t) + rest), depth, strategy)
         == UnlessDeep(depth + TreeDepth(t) > MAX_DEPTH, TreeValue(t, strategy), rest)
    decreases t, 1
  {
    hide TreeText, TreeOk, Token, ParseToken, WsOk;
    TreeStarts(t, strategy);
    StartsWith(TreeText(t), rest, strategy);
    TokenAfter(ws, TreeText(t) + rest, strategy);
    if depth <= MAX_DEPTH { AcceptToken(t, rest, depth, strategy); }
  }

  lemma {:induction false} AcceptToken(t: Tree, rest: seq<byte>, depth: nat, strategy: Strategy)
    requires TreeOk(t, strategy) && Follows(t, rest) && depth <= MAX_DEPTH
    ensures TreeText(t) + rest != []
    ensures ParseToken(TreeText(t) + rest, depth, strategy)
         == UnlessDeep(depth + TreeDepth(t) > MAX_DEPTH, TreeValue(t, strategy), rest)
    decreases t, 0
  {
    hide ParseToken, ItemsOk, MembersOk, ItemsText, MembersText, ItemsDepth, MembersDepth, NumberText, StringText;
    hide NumberOk, GlyphsOk, WsOk;
    match t
    case Word(w) => AcceptWord(w, rest, depth, strategy);
    case Num(n) => AcceptNumber(n, rest, depth, strategy);
    case Quote(gs) => AcceptString(gs, rest, depth, strategy);
    case List(items, inner) =>
      AcceptList(items, inner, rest, depth, strategy);
      Bracketed([OPEN_LIST], if items == [] then inner else ItemsText(items), [CLOSE_LIST], rest);
    case Object(ms, inner) =>
      AcceptObject(ms, inner, rest, depth, strategy);
      Bracketed([OPEN_OBJECT], if ms == [] then inner else MembersText(ms), [CLOSE_OBJECT], rest);
  }

  lemma Bracketed(open: seq<byte>, mid: seq<byte>, close: seq<byte>, rest: seq<byte>)
    ensures (open + mid + close) + rest == open + (mid + (close + rest))
  {}

  lemma AcceptWord(w: Json, rest: seq<byte>, depth: nat, strategy: Strategy)
    requires w == Null || w.Bool?
    ensures ParseToken(TreeText(Word(w)) + rest, depth, strategy) == Done(w, rest)
  {
    hide ScanNumber, Lex, AfterBrace, AfterBracket, WsOk;
    var word := TreeText(Word(w));
    assert (word + rest)[|word|..] == rest && (word + rest)[..|word|] == word && (word + rest)[0] == word[0];
  }

  lemma AcceptNumber(n: Number, rest: seq<byte>, depth: nat, strategy: Strategy)
    requires NumberOk(n) && T.EndsNumber(rest)
    ensures NumberText(n) + rest != []
    ensures ParseToken(NumberText(n) + rest, depth, strategy) == Done(NumeralValue(AsNumeral(n)), rest)
  {
    hide ScanNumber, NumeralValue, Lex, AfterBrace, AfterBracket, FracText, ExpText, WsOk;
    ScanTree(n, rest);
    assert Digit(n.whole[0]) && (n.whole + (FracText(n) + ExpText(n)))[0] == n.whole[0];
    var c := (NumberText(n) + rest)[0];
    assert c == MINUS || Digit(c);
  }

  lemma AcceptString(gs: seq<Glyph>, rest: seq<byte>, depth: nat, strategy: Strategy)
    requires GlyphsOk(gs)
    ensures StringText(gs) + rest != []
    ensures ParseToken(StringText(gs) + rest, depth, strategy) == Done(Str(StringValue(gs)), rest)
  {
    hide ScanNumber, Lex, AfterBrace, AfterBracket, Decoded, GlyphsText, StringValue, WsOk;
    LexString(gs, rest);
  }

  /** An item without the white space before it. */
  ghost function ItemCore(x: Item): seq<byte> { TreeText(x.v) + x.after }

  ghost function ItemsTail(items: seq<Item>): seq<byte>
    requires items != []
  {
    if |items| == 1 then ItemCore(items[0]) else ItemCore(items[0]) + ([COMMA] + ItemsText(items[1..]))
  }

  lemma CoreStarts(x: Item, strategy: Strategy)
    requires ItemOk(x, strategy)
    ensures Starts(ItemCore(x), strategy) && ItemCore(x)[0] == TreeText(x.v)[0] && TreeText(x.v) != []
    ensures TreeOk(x.v, strategy)
    ensures ItemText(x) == x.before + ItemCore(x) && WsOk(x.before, strategy) && WsOk(x.after, strategy)
  {
    hide TreeText, TreeOk, WsOk;
    TreeStarts(x.v, strategy);
  }

  lemma ItemsHead(items: seq<Item>, strategy: Strategy)
    requires items != [] && ItemsOk(items, strategy)
    ensures ItemsText(items) == items[0].before + ItemsTail(items) && WsOk(items[0].before, strategy)
    ensures Starts(ItemsTail(items), strategy)
    ensures ItemsOk(items[1..], strategy) && ItemOk(items[0], strategy) && TreeOk(items[0].v, strategy)
    ensures TreeText(items[0].v) != [] && ItemsTail(items)[0] == TreeText(items[0].v)[0]
  {
    hide TreeText, TreeOk, ItemOk, ItemCore, ItemText, WsOk;
    CoreStarts(items[0], strategy);
  }

  lemma NotClosing(t: Tree, strategy: Strategy)
    requires TreeOk(t, strategy)
    ensures TreeText(t) != [] && TreeText(t)[0] != CLOSE_LIST
  {
    match t
    case Num(n) =>
      assert Digit(n.whole[0]) && (n.whole + (FracText(n) + ExpText(n)))[0] == n.whole[0];
    case _ =>
  }

  lemma {:induction false} AcceptList(items: seq<Item>, inner: Ws, rest: seq<byte>, depth: nat, strategy: Strategy)
    requires ItemsOk(items, strategy) && WsOk(inner, strategy) && depth <= MAX_DEPTH
    ensures var mid := if items == [] then inner else ItemsText(items);
      ParseToken([OPEN_LIST] + (mid + ([CLOSE_LIST] + rest)), depth, strategy)
      == UnlessDeep(items != [] && depth + 1 + ItemsDepth(items) > MAX_DEPTH, Arr(ItemsValue(items, strategy)), rest)
    decreases items, 1
  {
    hide Token, ParseElements, AfterBrace, ScanNumber, Lex, ItemsText, ItemsTail, ItemsOk, TreeOk, ItemsDepth, WsOk;
    var tail := [CLOSE_LIST] + rest;
    var mid := if items == [] then inner else ItemsText(items);
    var all := [OPEN_LIST] + (mid + tail);
    assert all[1..] == mid + tail;
    if items == [] {
      TokenAfter(inner, tail, strategy);
      assert tail[1..] == rest;
    } else {
      ItemsHead(items, strategy);
      NotClosing(items[0].v, strategy);
      StartsWith(ItemsTail(items), tail, strategy);
      TokenAfter(items[0].before, ItemsTail(items) + tail, strategy);
      assert mid + tail == items[0].before + (ItemsTail(items) + tail);
      AcceptItems(items, rest, depth, strategy);
    }
  }

  lemma {:induction false} AcceptItems(items: seq<Item>, rest: seq<byte>, depth: nat, strategy: Strategy)
    requires items != [] && ItemsOk(items, strategy)
    ensures ParseElements(ItemsTail(items) + ([CLOSE_LIST] + rest), depth, strategy)
         == UnlessDeep(depth + 1 + ItemsDepth(items) > MAX_DEPTH, ItemsValue(items, strategy), rest)
    decreases items, 0
  {
    hide Token, ParseValue, ParseElements, ItemsText, ItemCore, ItemsOk, ItemOk, ItemDepth, ItemValue, TreeText;
    hide TreeOk, WsOk;
    ItemsHead(items, strategy);
    var x, tail := items[0], [CLOSE_LIST] + rest;
    var t := ItemsTail(items) + tail;
    if |items| == 1 {
      ReadItem(x, tail, depth, strategy);
      assert tail[1..] == rest;
      ElementsStep(t, x.after + tail, tail, [], depth, strategy);
      OneItem(items, strategy);
    } else {
      var more := items[1..];
      ItemsHead(more, strategy);
      var next := ItemsTail(more) + tail;
      var after := [COMMA] + (ItemsText(more) + tail);
      ReadItem(x, after, depth, strategy);
      ItemsTailNext(items, tail);
      assert after[1..] == more[0].before + next;
      StartsWith(ItemsTail(more), tail, strategy);
      TokenAfter(more[0].before, next, strategy);
      ElementsStep(t, x.after + after, after, next, depth, strategy);
      AcceptItems(more, rest, depth, strategy);
    }
  }

  lemma ItemsTailNext(items: seq<Item>, tail: seq<byte>)
    requires |items| > 1
    ensures ItemsTail(items) + tail == ItemCore(items[0]) + ([COMMA] + (ItemsText(items[1..]) + tail))
  {
    hide ItemCore, ItemsText, WsOk;
  }

  /** Reading one element: the list fails with it, ends, or goes on. */
  lemma ElementsStep(t: seq<byte>, r: seq<byte>, u: seq<byte>, w: seq<byte>, depth: nat, strategy: Strategy)
    requires u != [] && Token(r, strategy) == Done(u[0], u)
    requires u[0] == CLOSE_LIST || (u[0] == COMMA && w != [] && Token(u[1..], strategy) == Done(w[0], w))
    ensures ParseValue(t, depth + 1, strategy).Failed? ==>
      ParseElements(t, depth, strategy) == Failed(ParseValue(t, depth + 1, strategy).error)
    ensures var o := ParseValue(t, depth + 1, strategy);
      o.Done? && o.rest == r ==>
        && (u[0] == CLOSE_LIST ==> ParseElements(t, depth, strategy) == Done([o.value], u[1..]))
        && (u[0] == COMMA && ParseElements(w, depth, strategy).Failed? ==>
              ParseElements(t, depth, strategy) == Failed(ParseElements(w, depth, strategy).error))
        && (u[0] == COMMA && ParseElements(w, depth, strategy).Done? ==>
              ParseElements(t, depth, strategy)
              == Done([o.value] + ParseElements(w, depth, strategy).value, ParseElements(w, depth, strategy).rest))
  {
    hide Token, ParseValue, WsOk;
  }

  lemma OneItem(items: seq<Item>, strategy: Strategy)
    requires |items| == 1 && ItemsOk(items, strategy)
    ensures ItemsDepth(items) == ItemDepth(items[0]) && ItemsValue(items, strategy) == [ItemValue(items[0], strategy)]
  {
    hide TreeDepth, TreeValue, ItemOk, WsOk;
    assert items[1..] == [];
  }

  /** One value, and the token after it. */
  lemma {:induction false} ReadItem(x: Item, rest: seq<byte>, depth: nat, strategy: Strategy)
    requires ItemOk(x, strategy) && Starts(rest, strategy) && T.EndsNumber(rest)
    ensures ParseValue(ItemCore(x) + rest, depth + 1, strategy)
         == UnlessDeep(depth + 1 + ItemDepth(x) > MAX_DEPTH, ItemValue(x, strategy), x.after + rest)
    ensures Token(x.after + rest, strategy) == Done(rest[0], rest)
    decreases x, 2
  {
    hide Token, ParseValue, TreeText, TreeOk, TreeDepth, TreeValue, WsOk;
    WsEnds(x.after, rest, strategy);
    NoGarbage(strategy);
    AcceptTree(x.v, [], x.after + rest, depth + 1, strategy);
    assert [] + (TreeText(x.v) + (x.after + rest)) == ItemCore(x) + rest;
    TokenAfter(x.after, rest, strategy);
  }

  // ---------------------------------------------------------------- objects

  /** A member without the white space before it. */
  ghost function MemberCore(m: Member): seq<byte> {
    StringText(m.key) + (m.between + ([COLON] + ItemText(m.item)))
  }

  ghost function MembersTail(ms: seq<Member>): seq<byte>
    requires ms != []
  {
    if |ms| == 1 then MemberCore(ms[0]) else MemberCore(ms[0]) + ([COMMA] + MembersText(ms[1..]))
  }

  lemma MemberStarts(m: Member, strategy: Strategy)
    requires MemberOk(m, strategy)
    ensures Starts(MemberCore(m), strategy) && MemberCore(m)[0] == QUOTE && MemberText(m) == m.before + MemberCore(m)
    ensures WsOk(m.before, strategy)
  {
    hide ItemText, GlyphsText, ItemOk, GlyphsOk, WsOk;
    assert StringText(m.key)[0] == QUOTE;
  }

  lemma MembersHead(ms: seq<Member>, strategy: Strategy)
    requires ms != [] && MembersOk(ms, strategy)
    ensures MembersText(ms) == ms[0].before + MembersTail(ms) && WsOk(ms[0].before, strategy)
    ensures Starts(MembersTail(ms), strategy) && MembersTail(ms)[0] == QUOTE
    ensures MemberOk(ms[0], strategy) && MembersOk(ms[1..], strategy)
  {
    hide MemberText, MemberCore, MemberOk, WsOk;
    MemberStarts(ms[0], strategy);
  }

  lemma MemberParts(m: Member, strategy: Strategy)
    requires MemberOk(m, strategy)
    ensures GlyphsOk(m.key) && WsOk(m.between, strategy) && ItemOk(m.item, strategy) && WsOk(m.item.before, strategy)
    ensures WsOk(m.item.after, strategy) && TreeOk(m.item.v, strategy)
    ensures MemberDepth(m) == ItemDepth(m.item)
    ensures MemberValue(m, strategy) == (StringValue(m.key), ItemValue(m.item, strategy))
    ensures ItemDepth(m.item) == TreeDepth(m.item.v) && ItemValue(m.item, strategy) == TreeValue(m.item.v, strategy)
  {
    hide TreeOk, TreeDepth, TreeValue, StringValue, WsOk;
  }

  /** One member, and the token after it. */
  lemma {:induction false} ReadMember(m: Member, rest: seq<byte>, depth: nat, strategy: Strategy)
    requires MemberOk(m, strategy) && Starts(rest, strategy) && T.EndsNumber(rest)
    ensures MemberCore(m) + rest != []
    ensures ParseMember(MemberCore(m) + rest, depth, strategy)
         == UnlessDeep(depth + 1 + MemberDepth(m) > MAX_DEPTH, MemberValue(m, strategy), m.item.after + rest)
    ensures Token(m.item.after + rest, strategy) == Done(rest[0], rest)
    decreases m, 3
  {
    hide Token, ParseValue, Lex, Decoded, StringText, StringValue, TreeText, TreeOk, TreeDepth, TreeValue, MemberOk;
    hide WsOk, GlyphsOk, MemberDepth, MemberValue, ItemDepth, ItemValue;
    MemberParts(m, strategy);
    var x := m.item;
    var value := x.before + (TreeText(x.v) + (x.after + rest));
    var colon := [COLON] + value;
    var t := StringText(m.key) + (m.between + colon);
    assert ItemText(x) + rest == value;
    assert MemberCore(m) + rest == t;
    LexString(m.key, m.between + colon);
    TokenAfter(m.between, colon, strategy);
    assert colon[1..] == value;
    WsEnds(x.after, rest, strategy);
    AcceptTree(x.v, x.before, x.after + rest, depth + 1, strategy);
    TokenAfter(x.after, rest, strategy);
  }

  lemma {:induction false} AcceptObject(ms: seq<Member>, inner: Ws, rest: seq<byte>, depth: nat, strategy: Strategy)
    requires MembersOk(ms, strategy) && WsOk(inner, strategy) && depth <= MAX_DEPTH
    ensures var mid := if ms == [] then inner else MembersText(ms);
      ParseToken([OPEN_OBJECT] + (mid + ([CLOSE_OBJECT] + rest)), depth, strategy)
      == UnlessDeep(ms != [] && depth + 1 + MembersDepth(ms) > MAX_DEPTH, Obj(MembersValue([], ms, strategy)), rest)
    decreases ms, 1
  {
    hide Token, ParseMembers, AfterBracket, ScanNumber, Lex, MembersText, MembersTail, MembersOk, MemberOk;
    hide MembersDepth, WsOk, MemberValue;
    var tail := [CLOSE_OBJECT] + rest;
    var mid := if ms == [] then inner else MembersText(ms);
    var all := [OPEN_OBJECT] + (mid + tail);
    assert all[1..] == mid + tail;
    if ms == [] {
      TokenAfter(inner, tail, strategy);
      assert tail[1..] == rest;
    } else {
      MembersHead(ms, strategy);
      StartsWith(MembersTail(ms), tail, strategy);
      TokenAfter(ms[0].before, MembersTail(ms) + tail, strategy);
      assert mid + tail == ms[0].before + (MembersTail(ms) + tail);
      AcceptMembers(ms, [], rest, depth, strategy);
    }
  }

  lemma MembersTailNext(ms: seq<Member>, tail: seq<byte>, strategy: Strategy)
    requires |ms| > 1 && MembersOk(ms, strategy)
    ensures MembersTail(ms) + tail ==
            MemberCore(ms[0]) + ([COMMA] + (ms[1].before + (MembersTail(ms[1..]) + tail)))
  {
    hide MemberCore, MembersText, WsOk, MembersOk;
    MembersHead(ms, strategy);
    MembersHead(ms[1..], strategy);
    assert MembersText(ms[1..]) + tail == ms[1].before + (MembersTail(ms[1..]) + tail);
  }

  /** Reading one member: the object fails with it, ends, or goes on. */
  lemma MembersStep(t: seq<byte>, r: seq<byte>, u: seq<byte>, w: seq<byte>, depth: nat,
      before: seq<(seq<byte>, Json)>, strategy: Strategy)
    requires t != [] && u != [] && Token(r, strategy) == Done(u[0], u)
    requires u[0] == CLOSE_OBJECT || (u[0] == COMMA && w != [] && Token(u[1..], strategy) == Done(w[0], w))
    ensures ParseMember(t, depth, strategy).Failed? ==>
      ParseMembers(t, depth, before, strategy) == Failed(ParseMember(t, depth, strategy).error)
    ensures var o := ParseMember(t, depth, strategy);
      o.Done? && o.rest == r ==>
        var m := Insert(before, o.value.0, o.value.1);
        && (u[0] == CLOSE_OBJECT ==> ParseMembers(t, depth, before, strategy) == Done(m, u[1..]))
        && (u[0] == COMMA ==>
              ParseMembers(t, depth, before, strategy) == ParseMembers(w, depth, m, strategy))
  {
    hide Token, ParseMember, WsOk, Insert;
  }

  lemma {:induction false} AcceptMembers(ms: seq<Member>, before: seq<(seq<byte>, Json)>, rest: seq<byte>, depth: nat,
      strategy: Strategy)
    requires ms != [] && MembersOk(ms, strategy)
    ensures MembersTail(ms) + ([CLOSE_OBJECT] + rest) != []
    ensures ParseMembers(MembersTail(ms) + ([CLOSE_OBJECT] + rest), depth, before, strategy)
         == UnlessDeep(depth + 1 + MembersDepth(ms) > MAX_DEPTH, MembersValue(before, ms, strategy), rest)
    decreases ms, 0
  {
    hide Token, ParseMember, ParseMembers, MembersText, MemberCore, MembersOk, MemberOk, MemberDepth, MemberValue;
    hide WsOk, Insert;
    MembersHead(ms, strategy);
    var m, tail := ms[0], [CLOSE_OBJECT] + rest;
    var t := MembersTail(ms) + tail;
    if |ms| == 1 {
      ReadMember(m, tail, depth, strategy);
      assert tail[1..] == rest && ms[1..] == [];
      MembersStep(t, m.item.after + tail, tail, [], depth, before, strategy);
      MembersNone(strategy);
    } else {
      var more := ms[1..];
      MembersHead(more, strategy);
      var next := MembersTail(more) + tail;
      var after := [COMMA] + (more[0].before + next);
      ReadMember(m, after, depth, strategy);
      MembersTailNext(ms, tail, strategy);
      assert after[1..] == more[0].before + next;
      StartsWith(MembersTail(more), tail, strategy);
      TokenAfter(more[0].before, next, strategy);
      MembersStep(t, m.item.after + after, after, next, depth, before, strategy);
      AcceptMembers(more, Insert(before, MemberValue(m, strategy).0, MemberValue(m, strategy).1), rest, depth,
        strategy);
    }
  }

  lemma MembersNone(strategy: Strategy)
    ensures MembersOk([], strategy) && MembersDepth([]) == 0
  {}

  // ---------------------------------------------------------------- every text that is accepted is of the grammar

  lemma {:induction false} DeriveValue(t: seq<byte>, depth: nat, strategy: Strategy) returns (ws: Ws, tree: Tree)
    requires ParseValue(t, depth, strategy).Done?
    ensures WsOk(ws, strategy) && TreeOk(tree, strategy) && (Starts(t, strategy) ==> ws == [])
    ensures var o := ParseValue(t, depth, strategy);
      && t == ws + (TreeText(tree) + o.rest) && o.value == TreeValue(tree, strategy)
      && depth + TreeDepth(tree) <= MAX_DEPTH
    decreases |t|, 1
  {
    hide Token, ParseToken, TreeText, TreeOk, TreeDepth, TreeValue, WsOk;
    ws := SplitToken(t, strategy);
    tree := DeriveToken(Token(t, strategy).rest, depth, strategy);
    if ws != [] {
      WsHead(ws, strategy);
      assert t[0] == ws[0];
    }
  }

  lemma {:induction false} DeriveToken(u: seq<byte>, depth: nat, strategy: Strategy) returns (tree: Tree)
    requires u != [] && depth <= MAX_DEPTH && ParseToken(u, depth, strategy).Done?
    ensures TreeOk(tree, strategy)
    ensures var o := ParseToken(u, depth, strategy);
      && u == TreeText(tree) + o.rest && o.value == TreeValue(tree, strategy) && depth + TreeDepth(tree) <= MAX_DEPTH
    decreases |u|, 0
  {
    hide ScanNumber, NumeralValue, Lex, Decoded, StringValue, StringText, NumberText, NumberOk, GlyphsOk, AfterBrace;
    hide AfterBracket, ItemsOk, MembersOk, ItemsText, MembersText, WsOk;
    var c := u[0];
    if c == MINUS || Digit(c) {
      var n := UnscanNumber(u);
      tree := Num(n);
    } else if c == 116 || c == 102 || c == 110 {
      tree := Word(ParseToken(u, depth, strategy).value);
      var word := TreeText(tree);
      TakeDrop(u, |word|);
      assert u[..|word|] == word;
    } else if c == QUOTE {
      var gs := UnlexString(u);
      tree := Quote(gs);
    } else if c == OPEN_OBJECT {
      assert u == [OPEN_OBJECT] + u[1..];
      tree := DeriveObject(u[1..], depth, strategy);
    } else {
      assert u == [OPEN_LIST] + u[1..];
      tree := DeriveList(u[1..], depth, strategy);
    }
  }

  lemma {:induction false} DeriveList(t: seq<byte>, depth: nat, strategy: Strategy) returns (tree: Tree)
    requires depth <= MAX_DEPTH && AfterBracket(t, depth, strategy).Done?
    ensures TreeOk(tree, strategy)
    ensures var o := AfterBracket(t, depth, strategy);
      && [OPEN_LIST] + t == TreeText(tree) + o.rest && o.value == TreeValue(tree, strategy)
      && depth + TreeDepth(tree) <= MAX_DEPTH
    decreases |t|, 4
  {
    hide Token, ParseElements, ItemsOk, ItemsText, ItemsDepth, ItemsValue, WsOk;
    var ws := SplitToken(t, strategy);
    var u := Token(t, strategy).rest;
    if u[0] == CLOSE_LIST {
      tree := List([], ws);
      NoItems(strategy);
      assert [OPEN_LIST] + (ws + ([CLOSE_LIST] + u[1..])) == ([OPEN_LIST] + ws + [CLOSE_LIST]) + u[1..];
      assert u == [CLOSE_LIST] + u[1..];
    } else {
      var items := DeriveItems(u, depth, strategy);
      var rest := ParseElements(u, depth, strategy).rest;
      var all := [items[0].(before := ws)] + items[1..];
      ItemsBefore(items, ws, strategy);
      NoItems(strategy);
      tree := List(all, []);
      assert [OPEN_LIST] + (ws + (ItemsText(items) + ([CLOSE_LIST] + rest))) ==
        ([OPEN_LIST] + (ws + ItemsText(items)) + [CLOSE_LIST]) + rest;
    }
  }

  lemma NoItems(strategy: Strategy)
    ensures ItemsOk([], strategy) && ItemsValue([], strategy) == [] && WsOk([], strategy)
  {
    NoGarbage(strategy);
  }

  /** White space can be put before the first item. */
  lemma ItemsBefore(items: seq<Item>, ws: Ws, strategy: Strategy)
    requires items != [] && ItemsOk(items, strategy) && items[0].before == [] && WsOk(ws, strategy)
    ensures var all := [items[0].(before := ws)] + items[1..];
      && ItemsOk(all, strategy) && ItemsText(all) == ws + ItemsText(items)
      && ItemsValue(all, strategy) == ItemsValue(items, strategy) && ItemsDepth(all) == ItemsDepth(items)
  {
    hide TreeText, TreeOk, TreeValue, TreeDepth, WsOk;
    var x, all := items[0], [items[0].(before := ws)] + items[1..];
    assert all[1..] == items[1..] && all[0] == x.(before := ws);
    assert ItemText(all[0]) == ws + ItemText(x);
  }

  lemma {:induction false} DeriveItems(t: seq<byte>, depth: nat, strategy: Strategy) returns (items: seq<Item>)
    requires Starts(t, strategy) && ParseElements(t, depth, strategy).Done?
    ensures items != [] && ItemsOk(items, strategy) && items[0].before == []
    ensures var o := ParseElements(t, depth, strategy);
      && t == ItemsText(items) + ([CLOSE_LIST] + o.rest)
      && o.value == ItemsValue(items, strategy) && depth + 1 + ItemsDepth(items) <= MAX_DEPTH
    decreases |t|, 2
  {
    hide Token, ParseValue, TreeText, TreeOk, TreeValue, TreeDepth, ItemsOk, ItemsText, ItemsDepth, ItemsValue, WsOk;
    var ws, v := DeriveValue(t, depth + 1, strategy);
    var r := ParseValue(t, depth + 1, strategy).rest;
    var ws2 := SplitToken(r, strategy);
    var u := Token(r, strategy).rest;
    var x := Item([], v, ws2);
    assert u == [u[0]] + u[1..];
    assert t == TreeText(v) + (ws2 + u);
    if u[0] == CLOSE_LIST {
      items := [x];
      LastItem(x, u, strategy);
    } else {
      var ws3 := SplitToken(u[1..], strategy);
      var w := Token(u[1..], strategy).rest;
      var more := DeriveItems(w, depth, strategy);
      var rest := ParseElements(w, depth, strategy).rest;
      ItemsBefore(more, ws3, strategy);
      var all := [more[0].(before := ws3)] + more[1..];
      items := [x] + all;
      assert ws3 + (ItemsText(more) + ([CLOSE_LIST] + rest)) == ItemsText(all) + ([CLOSE_LIST] + rest);
      NextItem(x, all, [CLOSE_LIST] + rest, strategy);
    }
  }

  lemma LastItem(x: Item, u: seq<byte>, strategy: Strategy)
    requires x.before == [] && WsOk(x.after, strategy) && TreeOk(x.v, strategy)
    ensures ItemsOk([x], strategy) && TreeText(x.v) + (x.after + u) == ItemsText([x]) + u
    ensures ItemsValue([x], strategy) == [TreeValue(x.v, strategy)] && ItemsDepth([x]) == TreeDepth(x.v)
  {
    hide TreeText, TreeOk, TreeValue, TreeDepth, WsOk;
    assert [x][1..] == [];
    NoItems(strategy);
    assert ItemText(x) == TreeText(x.v) + x.after;
  }

  lemma NextItem(x: Item, more: seq<Item>, rest: seq<byte>, strategy: Strategy)
    requires x.before == [] && WsOk(x.after, strategy) && TreeOk(x.v, strategy) && more != [] && ItemsOk(more, strategy)
    ensures var items := [x] + more;
      && ItemsOk(items, strategy)
      && TreeText(x.v) + (x.after + ([COMMA] + (ItemsText(more) + rest))) == ItemsText(items) + rest
      && ItemsValue(items, strategy) == [TreeValue(x.v, strategy)] + ItemsValue(more, strategy)
      && ItemsDepth(items) == T.Max(TreeDepth(x.v), ItemsDepth(more))
  {
    hide TreeText, TreeOk, TreeValue, TreeDepth, WsOk;
    var items := [x] + more;
    NoGarbage(strategy);
    assert items[1..] == more;
    assert ItemText(x) == TreeText(x.v) + x.after && ItemOk(x, strategy);
    assert ItemsText(items) == ItemText(x) + ([COMMA] + ItemsText(more));
  }

  lemma {:induction false} DeriveObject(t: seq<byte>, depth: nat, strategy: Strategy) returns (tree: Tree)
    requires depth <= MAX_DEPTH && AfterBrace(t, depth, strategy).Done?
    ensures TreeOk(tree, strategy)
    ensures var o := AfterBrace(t, depth, strategy);
      && [OPEN_OBJECT] + t == TreeText(tree) + o.rest && o.value == TreeValue(tree, strategy)
      && depth + TreeDepth(tree) <= MAX_DEPTH
    decreases |t|, 4
  {
    hide Token, ParseMembers, MembersOk, MembersText, MembersDepth, WsOk, MembersValue;
    var ws := SplitToken(t, strategy);
    var u := Token(t, strategy).rest;
    if u[0] == CLOSE_OBJECT {
      tree := Object([], ws);
      NoMembers([], strategy);
      assert [OPEN_OBJECT] + (ws + ([CLOSE_OBJECT] + u[1..])) == ([OPEN_OBJECT] + ws + [CLOSE_OBJECT]) + u[1..];
      assert u == [CLOSE_OBJECT] + u[1..];
    } else {
      var ms := DeriveMembers(u, depth, [], strategy);
      var rest := ParseMembers(u, depth, [], strategy).rest;
      var all := [ms[0].(before := ws)] + ms[1..];
      MembersBefore(ms, ws, [], strategy);
      NoItems(strategy);
      tree := Object(all, []);
      assert [OPEN_OBJECT] + (ws + (MembersText(ms) + ([CLOSE_OBJECT] + rest))) ==
        ([OPEN_OBJECT] + (ws + MembersText(ms)) + [CLOSE_OBJECT]) + rest;
    }
  }

  lemma NoMembers(before: seq<(seq<byte>, Json)>, strategy: Strategy)
    ensures MembersOk([], strategy) && MembersValue(before, [], strategy) == before
  {}

  lemma MembersBefore(ms: seq<Member>, ws: Ws, before: seq<(seq<byte>, Json)>, strategy: Strategy)
    requires ms != [] && MembersOk(ms, strategy) && ms[0].before == [] && WsOk(ws, strategy)
    ensures var all := [ms[0].(before := ws)] + ms[1..];
      && MembersOk(all, strategy) && MembersText(all) == ws + MembersText(ms)
      && MembersValue(before, all, strategy) == MembersValue(before, ms, strategy)
      && MembersDepth(all) == MembersDepth(ms)
  {
    hide ItemText, ItemOk, ItemValue, ItemDepth, StringText, StringValue, GlyphsOk, Insert, WsOk;
    var m, all := ms[0], [ms[0].(before := ws)] + ms[1..];
    assert all[1..] == ms[1..] && all[0] == m.(before := ws);
    assert MemberText(all[0]) == ws + MemberText(m);
  }

  lemma {:induction false} DeriveMember(t: seq<byte>, depth: nat, strategy: Strategy) returns (m: Member)
    requires t != [] && ParseMember(t, depth, strategy).Done?
    ensures MemberOk(m, strategy) && m.before == [] && m.item.after == []
    ensures var o := ParseMember(t, depth, strategy);
      t == MemberCore(m) + o.rest && o.value == MemberValue(m, strategy) && depth + 1 + MemberDepth(m) <= MAX_DEPTH
    decreases |t|, 2
  {
    hide Token, ParseValue, Lex, Decoded, StringText, StringValue, TreeText, TreeOk, TreeDepth, TreeValue, WsOk;
    hide GlyphsOk;
    var gs := UnlexString(t);
    var r := Lex(t[1..]).rest;
    var between := SplitToken(r, strategy);
    var u := Token(r, strategy).rest;
    var before, v := DeriveValue(u[1..], depth + 1, strategy);
    var rest := ParseValue(u[1..], depth + 1, strategy).rest;
    NoItems(strategy);
    m := Member([], gs, between, Item(before, v, []));
    assert u == [COLON] + u[1..];
    assert ItemText(m.item) + rest == before + (TreeText(v) + rest);
    assert MemberCore(m) + rest == StringText(gs) + (between + ([COLON] + (ItemText(m.item) + rest)));
  }

  /** The white space after a member's value. */
  lemma MemberAfter(m: Member, ws: Ws, strategy: Strategy)
    requires MemberOk(m, strategy) && m.item.after == [] && WsOk(ws, strategy)
    ensures var m' := m.(item := m.item.(after := ws));
      && MemberOk(m', strategy) && MemberCore(m') == MemberCore(m) + ws
      && MemberValue(m', strategy) == MemberValue(m, strategy) && MemberDepth(m') == MemberDepth(m)
  {
    hide TreeText, TreeOk, TreeDepth, TreeValue, StringText, StringValue, GlyphsOk, WsOk;
    var m' := m.(item := m.item.(after := ws));
    assert ItemText(m'.item) == ItemText(m.item) + ws;
  }

  /** A member with the white space after it. */
  lemma WithAfter(t: seq<byte>, r: seq<byte>, m: Member, strategy: Strategy) returns (m': Member)
    requires MemberOk(m, strategy) && m.before == [] && m.item.after == []
    requires t == MemberCore(m) + r && Token(r, strategy).Done?
    ensures MemberOk(m', strategy) && m'.before == [] && t == MemberCore(m') + Token(r, strategy).rest
    ensures MemberValue(m', strategy) == MemberValue(m, strategy) && MemberDepth(m') == MemberDepth(m)
  {
    hide Token, MemberOk, MemberCore, MemberValue, MemberDepth, WsOk;
    var after := SplitToken(r, strategy);
    MemberAfter(m, after, strategy);
    m' := m.(item := m.item.(after := after));
    assert MemberCore(m) + (after + Token(r, strategy).rest) == MemberCore(m) + after + Token(r, strategy).rest;
  }

  lemma {:induction false} DeriveMembers(t: seq<byte>, depth: nat, before: seq<(seq<byte>, Json)>, strategy: Strategy)
    returns (ms: seq<Member>)
    requires t != [] && ParseMembers(t, depth, before, strategy).Done?
    ensures ms != [] && MembersOk(ms, strategy) && ms[0].before == []
    ensures var o := ParseMembers(t, depth, before, strategy);
      && t == MembersText(ms) + ([CLOSE_OBJECT] + o.rest)
      && o.value == MembersValue(before, ms, strategy) && depth + 1 + MembersDepth(ms) <= MAX_DEPTH
    decreases |t|, 3
  {
    hide Token, ParseMember, MemberOk, MemberCore, MemberText, MemberValue, MemberDepth, MembersOk, MembersText;
    hide MembersDepth, MembersValue, WsOk, Insert;
    var m0 := DeriveMember(t, depth, strategy);
    var r := ParseMember(t, depth, strategy).rest;
    var m := WithAfter(t, r, m0, strategy);
    var u := Token(r, strategy).rest;
    assert u == [u[0]] + u[1..];
    if u[0] == CLOSE_OBJECT {
      ms := [m];
      LastMember(m, before, u, strategy);
    } else {
      var ws := SplitToken(u[1..], strategy);
      var w := Token(u[1..], strategy).rest;
      var kv := MemberValue(m, strategy);
      var more := DeriveMembers(w, depth, Insert(before, kv.0, kv.1), strategy);
      var rest := ParseMembers(w, depth, Insert(before, kv.0, kv.1), strategy).rest;
      MembersBefore(more, ws, Insert(before, kv.0, kv.1), strategy);
      var all := [more[0].(before := ws)] + more[1..];
      ms := [m] + all;
      assert ws + (MembersText(more) + ([CLOSE_OBJECT] + rest)) == MembersText(all) + ([CLOSE_OBJECT] + rest);
      NextMember(m, all, before, [CLOSE_OBJECT] + rest, strategy);
    }
  }

  lemma LastMember(m: Member, before: seq<(seq<byte>, Json)>, u: seq<byte>, strategy: Strategy)
    requires MemberOk(m, strategy) && m.before == []
    ensures MembersOk([m], strategy) && MemberCore(m) + u == MembersText([m]) + u
    ensures MembersValue(before, [m], strategy) ==
            Insert(before, MemberValue(m, strategy).0, MemberValue(m, strategy).1)
    ensures MembersDepth([m]) == MemberDepth(m)
  {
    hide MemberValue, MemberDepth, Insert, ItemText, StringText, MemberOk, WsOk;
    assert [m][1..] == [];
    NoMembers(Insert(before, MemberValue(m, strategy).0, MemberValue(m, strategy).1), strategy);
    MembersNone(strategy);
    assert MemberText(m) == MemberCore(m);
  }

  lemma NextMember(m: Member, more: seq<Member>, before: seq<(seq<byte>, Json)>, rest: seq<byte>, strategy: Strategy)
    requires MemberOk(m, strategy) && m.before == [] && more != [] && MembersOk(more, strategy)
    ensures var ms := [m] + more;
      && MembersOk(ms, strategy) && MemberCore(m) + ([COMMA] + (MembersText(more) + rest)) == MembersText(ms) + rest
      && MembersValue(before, ms, strategy) ==
          MembersValue(Insert(before, MemberValue(m, strategy).0, MemberValue(m, strategy).1), more, strategy)
      && MembersDepth(ms) == T.Max(MemberDepth(m), MembersDepth(more))
  {
    hide MemberValue, MemberDepth, Insert, ItemText, StringText, MemberOk, WsOk;
    var ms := [m] + more;
    assert ms[1..] == more;
    assert MemberText(m) == MemberCore(m);
  }

  // ---------------------------------------------------------------- the whole text

  /** The text is a value, no deeper than two hundred, with white space around it, and comments if they are
      allowed. The last comment may be ended by the end of the text. */
  ghost predicate InGrammar(t: seq<byte>, v: Json, strategy: Strategy) {
    exists before, tree, after :: Derives(before, tree, after, t, v, strategy)
  }

  ghost predicate Derives(before: Ws, tree: Tree, after: Ws, t: seq<byte>, v: Json, strategy: Strategy) {
    && WsOk(before, strategy) && TrailingOk(after, strategy) && TreeOk(tree, strategy) && TreeDepth(tree) <= 200
    && t == before + (TreeText(tree) + after) && v == TreeValue(tree, strategy)
  }

  /** The parser accepts a text with a value exactly if the grammar gives the text that value. */
  lemma ParsesGrammar(t: seq<byte>, v: Json, strategy: Strategy)
    ensures Parse(t, strategy) == Done(v, []) <==> InGrammar(t, v, strategy)
    ensures Parse(t, strategy).Done? ==> Parse(t, strategy).rest == []
  {
    hide ParseValue, SkipGarbage, TreeOk, TreeText, TreeDepth, TreeValue, WsOk, TrailingOk;
    if InGrammar(t, v, strategy) {
      var before, tree, after :| Derives(before, tree, after, t, v, strategy);
      if after != [] { TrailingHead(after, strategy); }
      AcceptTree(tree, before, after, 0, strategy);
      SkipTrailing(after, strategy);
    }
    if Parse(t, strategy).Done? && Parse(t, strategy).value == v {
      var before, tree := DeriveValue(t, 0, strategy);
      var after := ParseValue(t, 0, strategy).rest;
      var ws := SplitGarbage(after, strategy);
      assert Derives(before, tree, after, t, v, strategy);
    }
  }
}
