/** The grammar of sections 2 to 7 of RFC 8259 as concrete syntax trees: a tree has a text, a value and a
    nesting depth, none of which mentions a parser. */
module JsonGrammar {
  import opened JsonStrings
  import opened JsonSyntax
  import opened JsonGarbage
  import T = JsonText

  /** unescaped, escape followed by one character, or escape u followed by four hexadecimal digits. */
  datatype Glyph = Plain(b: byte) | Short(e: byte) | Unicode(hex: seq<byte>)

  /** number = [ minus ] int [ frac ] [ exp ]; the parts that are absent have no digits. */
  datatype Number = Number(neg: bool, whole: seq<byte>, frac: seq<byte>, letter: byte, sign: seq<byte>, exp: seq<byte>)

  type Ws = seq<byte>

  datatype Tree =
    | Word(w: Json)
    | Num(n: Number)
    | Quote(glyphs: seq<Glyph>)
    | List(items: seq<Item>, inner: Ws)
    | Object(members: seq<Member>, inner: Ws)

  /** A value with the white space around it. */
  datatype Item = Item(before: Ws, v: Tree, after: Ws)

  /** ws string ws : item. */
  datatype Member = Member(before: Ws, key: seq<Glyph>, between: Ws, item: Item)

  // ---------------------------------------------------------------- well-formed trees

  ghost predicate GlyphOk(g: Glyph) {
    match g
    case Plain(b) => b >= 0x20 && b != QUOTE && b != BACKSLASH
    case Short(e) => e in {QUOTE, BACKSLASH, SLASH, 98, 102, 110, 114, 116}
    case Unicode(hex) => |hex| == 4 && forall i :: 0 <= i < 4 ==> HexDigit(hex[i])
  }

  ghost predicate GlyphsOk(gs: seq<Glyph>) { forall i :: 0 <= i < |gs| ==> GlyphOk(gs[i]) }

  ghost predicate NumberOk(n: Number) {
    && n.whole != [] && AllDigits(n.whole) && (n.whole[0] == 48 ==> |n.whole| == 1)
    && AllDigits(n.frac) && AllDigits(n.exp)
    && n.letter in {101, 69} && n.sign in {[], [PLUS], [MINUS]} && (n.exp == [] ==> n.letter == 101 && n.sign == [])
  }

  ghost predicate TreeOk(t: Tree, strategy: Strategy)
    decreases t, 0
  {
    match t
    case Word(w) => w == Null || w.Bool?
    case Num(n) => NumberOk(n)
    case Quote(gs) => GlyphsOk(gs)
    case List(items, inner) => WsOk(inner, strategy) && ItemsOk(items, strategy)
    case Object(ms, inner) => WsOk(inner, strategy) && MembersOk(ms, strategy)
  }

  ghost predicate ItemOk(x: Item, strategy: Strategy)
    decreases x, 1
  {
    WsOk(x.before, strategy) && WsOk(x.after, strategy) && TreeOk(x.v, strategy)
  }

  ghost predicate ItemsOk(items: seq<Item>, strategy: Strategy)
    decreases items, 2
  {
    items == [] || (ItemOk(items[0], strategy) && ItemsOk(items[1..], strategy))
  }

  ghost predicate MemberOk(m: Member, strategy: Strategy)
    decreases m, 2
  {
    WsOk(m.before, strategy) && GlyphsOk(m.key) && WsOk(m.between, strategy) && ItemOk(m.item, strategy)
  }

  ghost predicate MembersOk(ms: seq<Member>, strategy: Strategy)
    decreases ms, 3
  {
    ms == [] || (MemberOk(ms[0], strategy) && MembersOk(ms[1..], strategy))
  }

  // ---------------------------------------------------------------- text

  ghost function GlyphText(g: Glyph): seq<byte> {
    match g
    case Plain(b) => [b]
    case Short(e) => [BACKSLASH, e]
    case Unicode(hex) => [BACKSLASH, 117] + hex
  }

  ghost function GlyphsText(gs: seq<Glyph>): seq<byte> {
    if gs == [] then [] else GlyphText(gs[0]) + GlyphsText(gs[1..])
  }

  ghost function StringText(gs: seq<Glyph>): seq<byte> { [QUOTE] + GlyphsText(gs) + [QUOTE] }

  ghost function FracText(n: Number): seq<byte> { if n.frac == [] then [] else [POINT] + n.frac }
  ghost function ExpText(n: Number): seq<byte> { if n.exp == [] then [] else [n.letter] + n.sign + n.exp }

  ghost function NumberText(n: Number): seq<byte> {
    (if n.neg then [MINUS] else []) + (n.whole + (FracText(n) + ExpText(n)))
  }

  ghost function TreeText(t: Tree): seq<byte>
    decreases t, 0
  {
    match t
    case Word(w) => if w == Null then NULL_TEXT else if w == Bool(true) then TRUE_TEXT else FALSE_TEXT
    case Num(n) => NumberText(n)
    case Quote(gs) => StringText(gs)
    case List(items, inner) => [OPEN_LIST] + (if items == [] then inner else ItemsText(items)) + [CLOSE_LIST]
    case Object(ms, inner) => [OPEN_OBJECT] + (if ms == [] then inner else MembersText(ms)) + [CLOSE_OBJECT]
  }

  ghost function ItemText(x: Item): seq<byte>
    decreases x, 1
  {
    x.before + (TreeText(x.v) + x.after)
  }

  ghost function ItemsText(items: seq<Item>): seq<byte>
    requires items != []
    decreases items, 2
  {
    if |items| == 1 then ItemText(items[0]) else ItemText(items[0]) + ([COMMA] + ItemsText(items[1..]))
  }

  ghost function MemberText(m: Member): seq<byte>
    decreases m, 2
  {
    m.before + (StringText(m.key) + (m.between + ([COLON] + ItemText(m.item))))
  }

  ghost function MembersText(ms: seq<Member>): seq<byte>
    requires ms != []
    decreases ms, 3
  {
    if |ms| == 1 then MemberText(ms[0]) else MemberText(ms[0]) + ([COMMA] + MembersText(ms[1..]))
  }

  // ---------------------------------------------------------------- value

  ghost function GlyphPiece(g: Glyph): Piece
    requires GlyphOk(g)
  {
    match g
    case Plain(b) => Raw(b)
    case Short(e) => Raw(match e case 98 => 8 case 102 => 12 case 110 => 10 case 114 => 13 case 116 => 9 case _ => e)
    case Unicode(hex) => Escaped(Hex4(hex))
  }

  ghost function Pieces(gs: seq<Glyph>): (r: seq<Piece>)
    requires GlyphsOk(gs)
    ensures Units(r)
  {
    if gs == [] then [] else [GlyphPiece(gs[0])] + Pieces(gs[1..])
  }

  ghost function StringValue(gs: seq<Glyph>): seq<byte>
    requires GlyphsOk(gs)
  {
    Decoded(Pieces(gs))
  }

  ghost function AsNumeral(n: Number): (m: Numeral)
    requires NumberOk(n)
    ensures m.Ok()
  {
    Numeral(n.neg, n.whole, n.frac, n.sign == [MINUS], n.exp)
  }

  ghost function TreeValue(t: Tree, strategy: Strategy): Json
    requires TreeOk(t, strategy)
    decreases t, 0
  {
    match t
    case Word(w) => w
    case Num(n) => NumeralValue(AsNumeral(n))
    case Quote(gs) => Str(StringValue(gs))
    case List(items, _) => Arr(ItemsValue(items, strategy))
    case Object(ms, _) => Obj(MembersValue([], ms, strategy))
  }

  ghost function ItemsValue(items: seq<Item>, strategy: Strategy): seq<Json>
    requires ItemsOk(items, strategy)
    decreases items, 1
  {
    if items == [] then [] else [ItemValue(items[0], strategy)] + ItemsValue(items[1..], strategy)
  }

  ghost function ItemValue(x: Item, strategy: Strategy): Json
    requires ItemOk(x, strategy)
    decreases x, 1
  {
    TreeValue(x.v, strategy)
  }

  ghost function MemberValue(m: Member, strategy: Strategy): (seq<byte>, Json)
    requires MemberOk(m, strategy)
    decreases m, 1
  {
    (StringValue(m.key), ItemValue(m.item, strategy))
  }

  /** Members are entered from left to right. */
  ghost function MembersValue(before: seq<(seq<byte>, Json)>, ms: seq<Member>, strategy: Strategy)
    : seq<(seq<byte>, Json)>
    requires MembersOk(ms, strategy)
    decreases ms, 2
  {
    if ms == [] then before
    else MembersValue(Insert(before, MemberValue(ms[0], strategy).0, MemberValue(ms[0], strategy).1), ms[1..], strategy)
  }

  // ---------------------------------------------------------------- depth

  ghost function TreeDepth(t: Tree): nat
    decreases t, 0
  {
    match t
    case List(items, _) => if items == [] then 0 else 1 + ItemsDepth(items)
    case Object(ms, _) => if ms == [] then 0 else 1 + MembersDepth(ms)
    case _ => 0
  }

  ghost function ItemDepth(x: Item): nat
    decreases x, 1
  {
    TreeDepth(x.v)
  }

  ghost function ItemsDepth(items: seq<Item>): nat
    decreases items, 2
  {
    if items == [] then 0 else T.Max(ItemDepth(items[0]), ItemsDepth(items[1..]))
  }

  ghost function MembersDepth(ms: seq<Member>): nat
    decreases ms, 3
  {
    if ms == [] then 0 else T.Max(MemberDepth(ms[0]), MembersDepth(ms[1..]))
  }

  ghost function MemberDepth(m: Member): nat
    decreases m, 2
  {
    ItemDepth(m.item)
  }
}
