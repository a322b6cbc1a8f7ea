/** What the parser accepts and the printer writes, as functions on the text that is left. Text is a
    sequence of bytes, as in the strings of the original. */
module JsonSyntax {
  import opened JsonStrings

  /** Objects are kept sorted by key. */
  datatype Json =
    | Null
    | Bool(b: bool)
    | Int(n: int)
    | Double(x: real)
    | Str(s: seq<byte>)
    | Arr(elems: seq<Json>)
    | Obj(members: seq<(seq<byte>, Json)>)

  datatype Strategy = Standard | Comments

  datatype Error =
    | TooDeep | EndOfInput | ExpectedValue | Expected(word: seq<byte>) | Trailing
    | EndAfterCommentStart | EndInComment | MalformedComment
    | EndInString | Unescaped | BadUnicode | BadEscape
    | InvalidNumber | LeadingZero | NoFraction | NoExponent
    | ExpectedKey | ExpectedColon | ExpectedMemberComma | ExpectedElementComma

  /** A value read from the front of a text and the text after it, or the first error. */
  datatype Outcome<+T> = Done(value: T, rest: seq<byte>) | Failed(error: Error)

  ghost function UnlessDeep<T>(deep: bool, v: T, rest: seq<byte>): Outcome<T> {
    if deep then Failed(TooDeep) else Done(v, rest)
  }

  const MAX_DEPTH: nat := 200
  const NULL_TEXT: seq<byte> := [110, 117, 108, 108]
  const TRUE_TEXT: seq<byte> := [116, 114, 117, 101]
  const FALSE_TEXT: seq<byte> := [102, 97, 108, 115, 101]
  const MINUS: byte := 45
  const PLUS: byte := 43
  const POINT: byte := 46
  const COMMA: byte := 44
  const COLON: byte := 58
  const STAR: byte := 42
  const OPEN_LIST: byte := 91
  const CLOSE_LIST: byte := 93
  const OPEN_OBJECT: byte := 123
  const CLOSE_OBJECT: byte := 125
  const NEWLINE: byte := 10

  /** The character at the front; the terminating NUL at the end. */
  function Peek(t: seq<byte>): byte {
    if t == [] then 0 else t[0]
  }

  // ---------------------------------------------------------------- white space and comments

  predicate Space(b: byte) { b == 32 || b == 13 || b == 10 || b == 9 }

  function SkipSpace(t: seq<byte>): (r: seq<byte>)
    ensures |r| <= |t| && !Space(Peek(r))
  {
    if Space(Peek(t)) then SkipSpace(t[1..]) else t
  }

  function ToNewline(t: seq<byte>): (r: seq<byte>)
    ensures |r| <= |t| && (r == [] || r[0] == NEWLINE)
  {
    if t == [] || t[0] == NEWLINE then t else ToNewline(t[1..])
  }

  function ToClose(t: seq<byte>): (o: Outcome<bool>)
    ensures o.Done? ==> o.value && |o.rest| + 2 <= |t|
  {
    if |t| < 2 then Failed(EndInComment)
    else if t[0] == STAR && t[1] == SLASH then Done(true, t[2..])
    else ToClose(t[1..])
  }

  function SkipComment(t: seq<byte>): (o: Outcome<bool>)
    ensures o.Done? ==> if o.value then |o.rest| < |t| else o.rest == t
  {
    if Peek(t) != SLASH then Done(false, t)
    else if |t| == 1 then Failed(EndAfterCommentStart)
    else if t[1] == SLASH then Done(true, ToNewline(t[2..]))
    else if t[1] == STAR then ToClose(t[2..])
    else Failed(MalformedComment)
  }

  /** White space, and where they are allowed comments. */
  function SkipGarbage(t: seq<byte>, strategy: Strategy): (o: Outcome<()>)
    ensures o.Done? ==> |o.rest| <= |t|
    decreases |t|
  {
    var u := SkipSpace(t);
    if strategy == Standard then Done((), u)
    else
      match SkipComment(u)
      case Failed(e) => Failed(e)
      case Done(found, v) => if found then SkipGarbage(v, strategy) else Done((), u)
  }

  /** The text from the next token on. */
  function Token(t: seq<byte>, strategy: Strategy): (o: Outcome<byte>)
    ensures o.Done? ==> 0 < |o.rest| <= |t| && o.value == o.rest[0]
  {
    match SkipGarbage(t, strategy)
    case Failed(e) => Failed(e)
    case Done(_, u) => if u == [] then Failed(EndOfInput) else Done(u[0], u)
  }

  // ---------------------------------------------------------------- strings

  predicate HexDigit(b: byte) { 48 <= b <= 57 || 97 <= b <= 102 || 65 <= b <= 70 }

  function HexValue(b: byte): (v: int)
    requires HexDigit(b)
    ensures 0 <= v < 16
  {
    if b <= 57 then b - 48 else if b <= 70 then b - 55 else b - 87
  }

  function Hex4(t: seq<byte>): (v: int)
    requires |t| == 4 && forall i :: 0 <= i < 4 ==> HexDigit(t[i])
    ensures 0 <= v < 0x10000
  {
    ((HexValue(t[0]) * 16 + HexValue(t[1])) * 16 + HexValue(t[2])) * 16 + HexValue(t[3])
  }

  /** What a short escape stands for; -1 when there is no such escape. */
  function ShortEscape(b: byte): (r: int)
    ensures -1 <= r < 256
  {
    match b
    case 98 => 8
    case 102 => 12
    case 110 => 10
    case 114 => 13
    case 116 => 9
    case _ => if b == QUOTE || b == BACKSLASH || b == SLASH then b else -1
  }

  function Prepend(p: Piece, o: Outcome<seq<Piece>>): Outcome<seq<Piece>> {
    match o
    case Failed(e) => Failed(e)
    case Done(ps, rest) => Done([p] + ps, rest)
  }

  /** The pieces of a string up to its closing quote. */
  function Lex(t: seq<byte>): (o: Outcome<seq<Piece>>)
    ensures o.Done? ==> |o.rest| < |t| && Units(o.value)
  {
    if t == [] then Failed(EndInString)
    else if t[0] == QUOTE then Done([], t[1..])
    else if t[0] <= 0x1F then Failed(Unescaped)
    else if t[0] != BACKSLASH then Prepend(Raw(t[0]), Lex(t[1..]))
    else if |t| == 1 then Failed(EndInString)
    else if t[1] == 117 then
      if |t| < 6 || exists i :: 2 <= i < 6 && !HexDigit(t[i]) then Failed(BadUnicode)
      else Prepend(Escaped(Hex4(t[2..6])), Lex(t[6..]))
    else if ShortEscape(t[1]) < 0 then Failed(BadEscape)
    else Prepend(Raw(ShortEscape(t[1])), Lex(t[2..]))
  }

  // ---------------------------------------------------------------- numbers

  predicate Digit(b: byte) { 48 <= b <= 57 }

  predicate AllDigits(t: seq<byte>) { forall i :: 0 <= i < |t| ==> Digit(t[i]) }

  /** How many digits there are at the front. */
  function Digits(t: seq<byte>): (n: nat)
    ensures n <= |t|
  {
    if Digit(Peek(t)) then 1 + Digits(t[1..]) else 0
  }

  lemma {:induction false} DigitsAre(t: seq<byte>)
    ensures AllDigits(t[..Digits(t)]) && !Digit(Peek(t[Digits(t)..]))
  {
    var n := Digits(t);
    if n > 0 {
      DigitsAre(t[1..]);
      assert t[..n] == [t[0]] + t[1..][..n - 1] && t[n..] == t[1..][n - 1..];
    }
  }

  function DigitsValue(t: seq<byte>): nat
    requires AllDigits(t)
  {
    if t == [] then 0 else DigitsValue(t[..|t| - 1]) * 10 + (t[|t| - 1] - 48)
  }

  /** The parts of a number by section 6 of RFC 8259. No digits means no such part. */
  datatype Numeral = Numeral(neg: bool, whole: seq<byte>, frac: seq<byte>, expNeg: bool, exp: seq<byte>) {
    predicate Ok() { AllDigits(whole) && AllDigits(frac) && AllDigits(exp) }
  }

  function ScanFraction(t: seq<byte>): (o: Outcome<seq<byte>>)
    ensures o.Done? ==> |o.rest| <= |t| && AllDigits(o.value)
  {
    if Peek(t) != POINT then Done([], t)
    else
      var n := Digits(t[1..]);
      DigitsAre(t[1..]);
      if n == 0 then Failed(NoFraction) else Done(t[1..][..n], t[1..][n..])
  }

  function ScanExponent(t: seq<byte>): (o: Outcome<(bool, seq<byte>)>)
    ensures o.Done? ==> |o.rest| <= |t| && AllDigits(o.value.1)
  {
    if Peek(t) != 101 && Peek(t) != 69 then Done((false, []), t)
    else
      var u := if Peek(t[1..]) == PLUS || Peek(t[1..]) == MINUS then t[2..] else t[1..];
      var n := Digits(u);
      DigitsAre(u);
      if n == 0 then Failed(NoExponent) else Done((Peek(t[1..]) == MINUS, u[..n]), u[n..])
  }

  function ScanNumber(t: seq<byte>): (o: Outcome<Numeral>)
    ensures o.Done? ==> |o.rest| < |t| && o.value.Ok()
  {
    var neg := Peek(t) == MINUS;
    var u := if neg then t[1..] else t;
    var n := Digits(u);
    DigitsAre(u);
    if n == 0 then Failed(InvalidNumber)
    else if u[0] == 48 && n > 1 then Failed(LeadingZero)
    else ScanAfter(neg, u[..n], u[n..])
  }

  /** The parts of a number after its integer part. */
  function ScanAfter(neg: bool, whole: seq<byte>, t: seq<byte>): (o: Outcome<Numeral>)
    requires AllDigits(whole)
    ensures o.Done? ==> |o.rest| <= |t| && o.value.Ok() && o.value.whole == whole && o.value.neg == neg
  {
    match ScanFraction(t)
    case Failed(e) => Failed(e)
    case Done(frac, v) =>
      match ScanExponent(v)
      case Failed(e) => Failed(e)
      case Done(exp, w) => Done(Numeral(neg, whole, frac, exp.0, exp.1), w)
  }

  function Pow10(k: int): real
    decreases if k < 0 then -k else k
  {
    if k == 0 then 1.0 else if k > 0 then 10.0 * Pow10(k - 1) else Pow10(k + 1) / 10.0
  }

  /** A number of at most nine characters with neither fraction nor exponent is an int. */
  function NumeralValue(m: Numeral): Json
    requires m.Ok()
  {
    var sign := if m.neg then -1 else 1;
    if m.frac == [] && m.exp == [] && |m.whole| + (if m.neg then 1 else 0) <= 9 then Int(sign * DigitsValue(m.whole))
    else
      var e: int := if m.expNeg then 0 - DigitsValue(m.exp) else DigitsValue(m.exp);
      Double((sign * DigitsValue(m.whole + m.frac)) as real * Pow10(e - |m.frac|))
  }

  // ---------------------------------------------------------------- values

  /** Keys are compared byte by byte. */
  predicate Less(a: seq<byte>, b: seq<byte>) {
    b != [] && (a == [] || a[0] < b[0] || (a[0] == b[0] && Less(a[1..], b[1..])))
  }

  /** The object with a member set, replacing one with the same key. */
  function Insert(m: seq<(seq<byte>, Json)>, key: seq<byte>, v: Json): seq<(seq<byte>, Json)> {
    if m == [] || Less(key, m[0].0) then [(key, v)] + m
    else if m[0].0 == key then [(key, v)] + m[1..]
    else [m[0]] + Insert(m[1..], key, v)
  }

  function ParseWord(t: seq<byte>, word: seq<byte>, v: Json): (o: Outcome<Json>)
    requires word != []
    ensures o.Done? ==> |o.rest| < |t|
  {
    if word <= t then Done(v, t[|word|..]) else Failed(Expected(word))
  }

  function ParseValue(t: seq<byte>, depth: nat, strategy: Strategy): (o: Outcome<Json>)
    ensures o.Done? ==> |o.rest| < |t|
    decreases |t|, 1
  {
    if depth > MAX_DEPTH then Failed(TooDeep)
    else
      match Token(t, strategy)
      case Failed(e) => Failed(e)
      case Done(c, u) => ParseToken(u, depth, strategy)
  }

  /** A value whose first character has been found. */
  function ParseToken(u: seq<byte>, depth: nat, strategy: Strategy): (o: Outcome<Json>)
    requires u != []
    ensures o.Done? ==> |o.rest| < |u|
    decreases |u|, 0
  {
    var c := u[0];
    if c == MINUS || Digit(c) then
      match ScanNumber(u)
      case Failed(e) => Failed(e)
      case Done(m, rest) => Done(NumeralValue(m), rest)
    else if c == 116 then ParseWord(u, TRUE_TEXT, Bool(true))
    else if c == 102 then ParseWord(u, FALSE_TEXT, Bool(false))
    else if c == 110 then ParseWord(u, NULL_TEXT, Null)
    else if c == QUOTE then
      match Lex(u[1..])
      case Failed(e) => Failed(e)
      case Done(ps, rest) => Done(Str(Decoded(ps)), rest)
    else if c == OPEN_OBJECT then AfterBrace(u[1..], depth, strategy)
    else if c == OPEN_LIST then AfterBracket(u[1..], depth, strategy)
    else Failed(ExpectedValue)
  }

  function AfterBrace(t: seq<byte>, depth: nat, strategy: Strategy): (o: Outcome<Json>)
    ensures o.Done? ==> |o.rest| < |t|
    decreases |t|, 4
  {
    match Token(t, strategy)
    case Failed(e) => Failed(e)
    case Done(c, u) =>
      if c == CLOSE_OBJECT then Done(Obj([]), u[1..])
      else
        match ParseMembers(u, depth, [], strategy)
        case Failed(e) => Failed(e)
        case Done(m, rest) => Done(Obj(m), rest)
  }

  function AfterBracket(t: seq<byte>, depth: nat, strategy: Strategy): (o: Outcome<Json>)
    ensures o.Done? ==> |o.rest| < |t|
    decreases |t|, 4
  {
    match Token(t, strategy)
    case Failed(e) => Failed(e)
    case Done(c, u) =>
      if c == CLOSE_LIST then Done(Arr([]), u[1..])
      else
        match ParseElements(u, depth, strategy)
        case Failed(e) => Failed(e)
        case Done(vs, rest) => Done(Arr(vs), rest)
  }

  function ParseElements(t: seq<byte>, depth: nat, strategy: Strategy): (o: Outcome<seq<Json>>)
    ensures o.Done? ==> |o.rest| < |t|
    decreases |t|, 2
  {
    match ParseValue(t, depth + 1, strategy)
    case Failed(e) => Failed(e)
    case Done(v, r) =>
      match Token(r, strategy)
      case Failed(e) => Failed(e)
      case Done(c, u) =>
        if c == CLOSE_LIST then Done([v], u[1..])
        else if c != COMMA then Failed(ExpectedElementComma)
        else
          match Token(u[1..], strategy)
          case Failed(e) => Failed(e)
          case Done(_, w) =>
            match ParseElements(w, depth, strategy)
            case Failed(e) => Failed(e)
            case Done(vs, rest) => Done([v] + vs, rest)
  }

  /** One member: key, colon, value. */
  function ParseMember(t: seq<byte>, depth: nat, strategy: Strategy): (o: Outcome<(seq<byte>, Json)>)
    requires t != []
    ensures o.Done? ==> |o.rest| < |t|
    decreases |t|, 2
  {
    if t[0] != QUOTE then Failed(ExpectedKey)
    else
      match Lex(t[1..])
      case Failed(e) => Failed(e)
      case Done(ps, r) =>
        match Token(r, strategy)
        case Failed(e) => Failed(e)
        case Done(c, u) =>
          if c != COLON then Failed(ExpectedColon)
          else
            match ParseValue(u[1..], depth + 1, strategy)
            case Failed(e) => Failed(e)
            case Done(v, rest) => Done((Decoded(ps), v), rest)
  }

  function ParseMembers(t: seq<byte>, depth: nat, m: seq<(seq<byte>, Json)>, strategy: Strategy)
    : (o: Outcome<seq<(seq<byte>, Json)>>)
    requires t != []
    ensures o.Done? ==> |o.rest| < |t|
    decreases |t|, 3
  {
    match ParseMember(t, depth, strategy)
    case Failed(e) => Failed(e)
    case Done(kv, r) =>
      var m' := Insert(m, kv.0, kv.1);
      match Token(r, strategy)
      case Failed(e) => Failed(e)
      case Done(c, u) =>
        if c == CLOSE_OBJECT then Done(m', u[1..])
        else if c != COMMA then Failed(ExpectedMemberComma)
        else
          match Token(u[1..], strategy)
          case Failed(e) => Failed(e)
          case Done(_, w) => ParseMembers(w, depth, m', strategy)
  }

  /** Json::parse: one value and nothing but garbage after it. */
  function Parse(t: seq<byte>, strategy: Strategy): Outcome<Json> {
    match ParseValue(t, 0, strategy)
    case Failed(e) => Failed(e)
    case Done(v, r) =>
      match SkipGarbage(r, strategy)
      case Failed(e) => Failed(e)
      case Done(_, u) => if u == [] then Done(v, u) else Failed(Trailing)
  }

  /** Json::parse_multi: the values read, the text not read, and the error that ended it, if any. The value
      that failed is counted too: the empty string when it was a string, else null. */
  datatype Multi = Multi(values: seq<Json>, rest: seq<byte>, error: seq<Error>)

  function FailedValue(t: seq<byte>, strategy: Strategy): Json {
    match Token(t, strategy)
    case Failed(_) => Null
    case Done(c, _) => if c == QUOTE then Str([]) else Null
  }

  function ParseMulti(t: seq<byte>, strategy: Strategy): Multi
    decreases |t|
  {
    if t == [] then Multi([], t, [])
    else
      match ParseValue(t, 0, strategy)
      case Failed(e) => Multi([FailedValue(t, strategy)], t, [e])
      case Done(v, r) =>
        match SkipGarbage(r, strategy)
        case Failed(e) => Multi([v], t, [e])
        case Done(_, u) =>
          var more := ParseMulti(u, strategy);
          Multi([v] + more.values, more.rest, more.error)
  }
}
