/** The parser as it runs: an index into the text, and the first error. */
module JsonParsers {
  import opened Prelude
  import opened JsonStrings
  import opened JsonSyntax

  lemma Slide(s: seq<byte>, i: nat, n: nat)
    requires i + n <= |s|
    ensures s[i..][n..] == s[i + n..]
    ensures n < |s| - i ==> s[i..][n] == s[i + n]
  {}

  /** How what is left to lex completes what was decoded so far. */
  ghost predicate Decoding(whole: Outcome<seq<Piece>>, left: Outcome<seq<Piece>>, last: int, out: seq<byte>)
    requires last < 0x10000 && (whole.Done? ==> Units(whole.value)) && (left.Done? ==> Units(left.value))
  {
    match left
    case Failed(e) => whole == Failed(e)
    case Done(ps, rest) => whole.Done? && whole.rest == rest && Decoded(whole.value) == out + Decoded(Held(last) + ps)
  }

  lemma DecodeRaw(whole: Outcome<seq<Piece>>, left: Outcome<seq<Piece>>, last: int, out: seq<byte>, b: byte)
    requires last < 0x10000 && (whole.Done? ==> Units(whole.value)) && (left.Done? ==> Units(left.value))
    requires Prepend(Raw(b), left).Done? ==> Units(Prepend(Raw(b), left).value)
    requires Decoding(whole, Prepend(Raw(b), left), last, out)
    ensures Decoding(whole, left, -1, out + EncodeUtf8(last) + [b])
  {
    hide Decoded, EncodeUtf8;
    if left.Done? {
      HoldRaw(last, b, left.value);
      assert Held(last) + [Raw(b)] + left.value == Held(last) + ([Raw(b)] + left.value);
      assert Held(-1) + left.value == left.value;
      assert out + (EncodeUtf8(last) + [b] + Decoded(left.value)) == out + EncodeUtf8(last) + [b] + Decoded(left.value);
    }
  }

  lemma DecodeEscaped(whole: Outcome<seq<Piece>>, left: Outcome<seq<Piece>>, last: int, out: seq<byte>, code: int)
    requires last < 0x10000 && 0 <= code < 0x10000
    requires (whole.Done? ==> Units(whole.value)) && (left.Done? ==> Units(left.value))
    requires Prepend(Escaped(code), left).Done? ==> Units(Prepend(Escaped(code), left).value)
    requires Decoding(whole, Prepend(Escaped(code), left), last, out)
    ensures if High(last) && Low(code) then Decoding(whole, left, -1, out + EncodeUtf8(Combine(last, code)))
            else Decoding(whole, left, code, out + EncodeUtf8(last))
  {
    hide Decoded, EncodeUtf8, Combine;
    if left.Done? {
      var ps := left.value;
      assert Held(last) + [Escaped(code)] + ps == Held(last) + ([Escaped(code)] + ps);
      if High(last) && Low(code) {
        HoldLow(last, code, ps);
        assert Held(-1) + ps == ps;
        assert out + (EncodeUtf8(Combine(last, code)) + Decoded(ps)) ==
          out + EncodeUtf8(Combine(last, code)) + Decoded(ps);
      } else {
        HoldNext(last, code, ps);
        assert out + (EncodeUtf8(last) + Decoded(Held(code) + ps)) == out + EncodeUtf8(last) + Decoded(Held(code) + ps);
      }
    }
  }

  lemma DecodeEnd(whole: Outcome<seq<Piece>>, rest: seq<byte>, last: int, out: seq<byte>)
    requires last < 0x10000 && (whole.Done? ==> Units(whole.value)) && Decoding(whole, Done([], rest), last, out)
    ensures whole.Done? && whole.rest == rest && Decoded(whole.value) == out + EncodeUtf8(last)
  {
    if last >= 0 { ReleaseHeld(last, []); }
  }

  /** What parse_json returns: a string that fails to parse leaves an empty string. */
  function Given(o: Outcome<Json>, t: seq<byte>, depth: nat, strategy: Strategy): Json {
    match o
    case Done(v, _) => v
    case Failed(_) => if depth > MAX_DEPTH then Null else FailedValue(t, strategy)
  }

  /** How the elements left to read complete those read. */
  ghost predicate Listed(whole: Outcome<Json>, data: seq<Json>, left: Outcome<seq<Json>>) {
    match left
    case Failed(e) => whole == Failed(e)
    case Done(vs, rest) => whole == Done(Arr(data + vs), rest)
  }

  lemma NoneListed(whole: Outcome<Json>, left: Outcome<seq<Json>>)
    requires left.Failed? ==> whole == Failed(left.error)
    requires left.Done? ==> whole == Done(Arr(left.value), left.rest)
    ensures Listed(whole, [], left)
  {
    if left.Done? { assert [] + left.value == left.value; }
  }

  /** After one more element: the list ends, or goes on after a comma. */
  ghost predicate ListGoesOn(whole: Outcome<Json>, data: seq<Json>, t: seq<byte>, depth: nat, strategy: Strategy) {
    match ParseValue(t, depth + 1, strategy)
    case Failed(e) => whole == Failed(e)
    case Done(v, r) =>
      match Token(r, strategy)
      case Failed(e) => whole == Failed(e)
      case Done(c, u) =>
        if c == CLOSE_LIST then whole == Done(Arr(data + [v]), u[1..])
        else if c != COMMA then whole == Failed(ExpectedElementComma)
        else
          match Token(u[1..], strategy)
          case Failed(e) => whole == Failed(e)
          case Done(_, w) => Listed(whole, data + [v], ParseElements(w, depth, strategy))
  }

  lemma OneListed(whole: Outcome<Json>, data: seq<Json>, t: seq<byte>, depth: nat, strategy: Strategy)
    requires Listed(whole, data, ParseElements(t, depth, strategy))
    ensures ListGoesOn(whole, data, t, depth, strategy)
  {
    hide ParseValue, Token;
    var o := ParseValue(t, depth + 1, strategy);
    var left := ParseElements(t, depth, strategy);
    if left.Done? {
      assert data + [o.value] + left.value[1..] == data + left.value;
    }
  }

  ghost predicate Gathered(whole: Outcome<Json>, left: Outcome<seq<(seq<byte>, Json)>>) {
    match left
    case Failed(e) => whole == Failed(e)
    case Done(m, rest) => whole == Done(Obj(m), rest)
  }

  class JsonParser {
    const str: seq<byte>
    const strategy: Strategy
    var i: nat
    var failed: bool
    var err: Option<Error>

    ghost predicate Valid()
      reads this
    {
      i <= |str| && (failed <==> err.Some?)
    }

    ghost function Rest(): seq<byte>
      requires Valid()
      reads this
    {
      str[i..]
    }

    /** The parser is where this outcome says. */
    ghost predicate Reached<T>(o: Outcome<T>)
      requires Valid()
      reads this
    {
      match o
      case Done(_, rest) => !failed && Rest() == rest
      case Failed(e) => failed && err == Some(e)
    }

    /** The first error stays. */
    twostate predicate StillFailed()
      reads this
    {
      failed && err == old(err)
    }

    constructor (str: seq<byte>, strategy: Strategy)
      ensures Valid() && this.str == str && this.strategy == strategy && i == 0 && !failed && Rest() == str
    {
      this.str, this.strategy := str, strategy;
      i, failed, err := 0, false, None;
    }

    /** The character at a position; the terminating NUL at the end. */
    function At(k: nat): (b: byte)
    {
      if k < |str| then str[k] else 0
    }

    method Fail(e: Error)
      requires Valid()
      modifies `failed, `err
      ensures Valid() && failed && err == if old(failed) then old(err) else Some(e)
    {
      if !failed {
        err := Some(e);
      }
      failed := true;
    }

    method ConsumeWhitespace()
      requires Valid()
      modifies `i
      ensures Valid() && i >= old(i) && Rest() == SkipSpace(old(Rest()))
    {
      while At(i) == 32 || At(i) == 13 || At(i) == 10 || At(i) == 9
        invariant Valid() && i >= old(i) && SkipSpace(Rest()) == SkipSpace(old(Rest()))
        decreases |str| - i
      {
        Slide(str, i, 1);
        i := i + 1;
      }
    }

    method ConsumeComment() returns (found: bool)
      requires Valid()
      modifies this
      ensures Valid() && i >= old(i)
      ensures old(failed) ==> StillFailed()
      ensures !old(failed) ==> Reached(SkipComment(old(Rest())))
      ensures !old(failed) && !failed ==> found == SkipComment(old(Rest())).value
    {
      found := false;
      if At(i) == SLASH {
        ghost var t := Rest();
        i := i + 1;
        Slide(str, i - 1, 1);
        if i == |str| {
          Fail(EndAfterCommentStart);
        } else if At(i) == SLASH {
          i := i + 1;
          Slide(str, i - 2, 2);
          LineComment();
          found := true;
        } else if At(i) == STAR {
          i := i + 1;
          Slide(str, i - 2, 2);
          found := BlockComment();
        } else {
          Fail(MalformedComment);
        }
      }
    }

    method LineComment()
      requires Valid()
      modifies `i
      ensures Valid() && i >= old(i) && Rest() == ToNewline(old(Rest()))
    {
      while i < |str| && At(i) != NEWLINE
        invariant Valid() && i >= old(i) && ToNewline(Rest()) == ToNewline(old(Rest()))
        decreases |str| - i
      {
        Slide(str, i, 1);
        i := i + 1;
      }
    }

    method BlockComment() returns (closed: bool)
      requires Valid()
      modifies this
      ensures Valid() && i >= old(i)
      ensures old(failed) ==> StillFailed()
      ensures !old(failed) ==> Reached(ToClose(old(Rest())))
      ensures !old(failed) && !failed ==> closed
    {
      if i + 2 > |str| {
        Fail(EndInComment);
        return false;
      }
      while !(At(i) == STAR && At(i + 1) == SLASH)
        invariant Valid() && old(i) <= i && i + 2 <= |str| && failed == old(failed) && err == old(err)
        invariant ToClose(Rest()) == ToClose(old(Rest()))
        decreases |str| - i
      {
        Slide(str, i, 1);
        i := i + 1;
        if i + 2 > |str| {
          Fail(EndInComment);
          return false;
        }
      }
      Slide(str, i, 2);
      Slide(str, i, 1);
      i := i + 2;
      return true;
    }

    method ConsumeGarbage()
      requires Valid()
      modifies this
      ensures Valid() && i >= old(i)
      ensures old(failed) ==> StillFailed()
      ensures !old(failed) ==> Reached(SkipGarbage(old(Rest()), strategy))
    {
      ConsumeWhitespace();
      if strategy == Comments {
        var found := true;
        while found
          invariant Valid() && i >= old(i)
          invariant old(failed) ==> StillFailed()
          invariant !old(failed) ==> !failed && SkipSpace(Rest()) == Rest()
          invariant !old(failed) ==>
            SkipGarbage(old(Rest()), strategy) == if found then SkipGarbage(Rest(), strategy) else Done((), Rest())
          decreases |str| - i, found
        {
          ghost var at := i;
          found := ConsumeComment();
          if failed {
            return;
          }
          ConsumeWhitespace();
        }
      }
    }

    method GetNextToken() returns (c: byte)
      requires Valid()
      modifies this
      ensures Valid() && i >= old(i)
      ensures old(failed) ==> StillFailed()
      ensures failed ==> c == 0
      ensures !old(failed) ==>
        match Token(old(Rest()), strategy)
        case Failed(e) => failed && err == Some(e)
        case Done(d, u) => !failed && c == d && 0 < i && str[i - 1..] == u && Rest() == u[1..]
    {
      ConsumeGarbage();
      if failed {
        return 0;
      }
      if i == |str| {
        Fail(EndOfInput);
        return 0;
      }
      i := i + 1;
      Slide(str, i - 1, 1);
      return str[i - 1];
    }

    method ParseString() returns (s: seq<byte>)
      requires Valid() && !failed
      modifies this
      ensures Valid() && i >= old(i)
      ensures Reached(Lex(old(Rest())))
      ensures s == match Lex(old(Rest())) case Done(ps, _) => Decoded(ps) case Failed(_) => []
    {
      hide Lex, Decoded, EncodeUtf8, Combine, Decoding, Hex4, ShortEscape, HexDigit;
      ghost var whole := Lex(Rest());
      var last: int, out: seq<byte> := -1, [];
      StartDecoding(whole);
      while true
        invariant Valid() && i >= old(i) && !failed && last < 0x10000
        invariant Decoding(whole, Lex(Rest()), last, out)
        decreases |str| - i
      {
        LexAt(str, i);
        if i == |str| {
          DecodeFailed(whole, EndInString, last, out);
          Fail(EndInString);
          return [];
        }
        var ch := str[i];
        i := i + 1;
        if ch == QUOTE {
          DecodeEnd(whole, str[i..], last, out);
          return out + EncodeUtf8(last);
        }
        if ch <= 0x1F {
          DecodeFailed(whole, Unescaped, last, out);
          Fail(Unescaped);
          return [];
        }
        if ch != BACKSLASH {
          DecodeRaw(whole, Lex(Rest()), last, out, ch);
          out := out + EncodeUtf8(last) + [ch];
          last := -1;
          continue;
        }
        if i == |str| {
          DecodeFailed(whole, EndInString, last, out);
          Fail(EndInString);
          return [];
        }
        ch := str[i];
        i := i + 1;
        if ch == 117 {
          if |str| - i < 4 ||
            !(HexDigit(str[i]) && HexDigit(str[i + 1]) && HexDigit(str[i + 2]) && HexDigit(str[i + 3])) {
            DecodeFailed(whole, BadUnicode, last, out);
            Fail(BadUnicode);
            return [];
          }
          var code := Hex4(str[i..i + 4]);
          i := i + 4;
          DecodeEscaped(whole, Lex(Rest()), last, out, code);
          if High(last) && Low(code) {
            out := out + EncodeUtf8(Combine(last, code));
            last := -1;
          } else {
            out := out + EncodeUtf8(last);
            last := code;
          }
          continue;
        }
        var b := ShortEscape(ch);
        if b < 0 {
          DecodeFailed(whole, BadEscape, last, out);
          Fail(BadEscape);
          return [];
        }
        DecodeRaw(whole, Lex(Rest()), last, out, b);
        out := out + EncodeUtf8(last) + [b];
        last := -1;
      }
    }

    method SkipDigits()
      requires Valid()
      modifies `i
      ensures Valid() && i == old(i) + Digits(old(Rest()))
    {
      hide Digits;
      DigitsAt(str, i);
      while Digit(At(i))
        invariant Valid() && i >= old(i) && i + Digits(Rest()) == old(i) + Digits(old(Rest()))
        invariant Digit(At(i)) ==> Digits(Rest()) == 1 + Digits(str[i + 1..])
        invariant !Digit(At(i)) ==> Digits(Rest()) == 0
        decreases |str| - i
      {
        i := i + 1;
        DigitsAt(str, i);
      }
    }

    /** Reads the digits after a point, if there is one. */
    method ParseFraction() returns (frac: seq<byte>)
      requires Valid() && !failed
      modifies this
      ensures Valid() && i >= old(i) && Reached(ScanFraction(old(Rest())))
      ensures !failed ==> frac == ScanFraction(old(Rest())).value
    {
      hide Digits, ScanFraction;
      FractionAt(str, i);
      frac := [];
      if At(i) == POINT {
        i := i + 1;
        DigitsAt(str, i);
        if !Digit(At(i)) {
          Fail(NoFraction);
          return;
        }
        var start := i;
        SkipDigits();
        frac := str[start..i];
      }
    }

    /** Reads an exponent, if there is one. */
    method ParseExponent() returns (exp: (bool, seq<byte>))
      requires Valid() && !failed
      modifies this
      ensures Valid() && i >= old(i) && Reached(ScanExponent(old(Rest())))
      ensures !failed ==> exp == ScanExponent(old(Rest())).value
    {
      hide Digits, ScanExponent;
      ExponentAt(str, i);
      exp := (false, []);
      if At(i) == 101 || At(i) == 69 {
        i := i + 1;
        var neg := At(i) == MINUS;
        if At(i) == PLUS || At(i) == MINUS {
          i := i + 1;
        }
        DigitsAt(str, i);
        if !Digit(At(i)) {
          Fail(NoExponent);
          return;
        }
        var start := i;
        SkipDigits();
        exp := (neg, str[start..i]);
      }
    }

    method ParseNumber() returns (v: Json)
      requires Valid() && !failed
      modifies this
      ensures Valid() && i >= old(i) && Reached(ScanNumber(old(Rest())))
      ensures v == match ScanNumber(old(Rest())) case Done(m, _) => NumeralValue(m) case Failed(_) => Null
    {
      hide Digits, ScanAfter, NumeralValue, ScanNumber;
      NumberAt(str, i);
      var startPos := i;
      var neg := At(i) == MINUS;
      if neg {
        i := i + 1;
      }
      var start := i;
      DigitsAt(str, i);
      if At(i) == 48 {
        i := i + 1;
        DigitsAt(str, i);
        if Digit(At(i)) {
          Fail(LeadingZero);
          return Null;
        }
      } else if Digit(At(i)) {
        SkipDigits();
      } else {
        Fail(InvalidNumber);
        return Null;
      }
      v := ParseAfter(neg, startPos, start);
    }

    /** A number after its integer part. */
    method ParseAfter(neg: bool, startPos: nat, start: nat) returns (v: Json)
      requires Valid() && !failed && start == (if neg then startPos + 1 else startPos) && start <= i
      requires AllDigits(str[start..i])
      modifies this
      ensures Valid() && i >= old(i) && Reached(ScanAfter(neg, str[start..old(i)], old(Rest())))
      ensures v == match ScanAfter(neg, str[start..old(i)], old(Rest()))
                   case Done(m, _) => NumeralValue(m)
                   case Failed(_) => Null
    {
      hide Digits, ScanFraction, ScanExponent, DigitsValue, Pow10;
      var whole := str[start..i];
      NoMore(Rest());
      if At(i) != POINT && At(i) != 101 && At(i) != 69 && i - startPos <= 9 {
        return Int((if neg then -1 else 1) * DigitsValue(whole));
      }
      var frac := ParseFraction();
      if failed {
        return Null;
      }
      var exp := ParseExponent();
      if failed {
        return Null;
      }
      return NumeralValue(Numeral(neg, whole, frac, exp.0, exp.1));
    }

    /** The character just read begins this word. */
    method Expect(word: seq<byte>, res: Json) returns (v: Json)
      requires Valid() && !failed && i > 0 && word != []
      modifies this
      ensures Valid() && i >= old(i) - 1 && Reached(ParseWord(old(str[i - 1..]), word, res))
      ensures v == match ParseWord(old(str[i - 1..]), word, res) case Done(w, _) => w case Failed(_) => Null
    {
      i := i - 1;
      if word <= str[i..] {
        Slide(str, i, |word|);
        i := i + |word|;
        return res;
      } else {
        Fail(Expected(word));
        return Null;
      }
    }

    method ParseJson(depth: nat) returns (v: Json)
      requires Valid()
      modifies this
      ensures Valid() && i >= old(i)
      ensures old(failed) ==> StillFailed()
      ensures !old(failed) ==> Reached(ParseValue(old(Rest()), depth, strategy))
      ensures !old(failed) ==> v == Given(ParseValue(old(Rest()), depth, strategy), old(Rest()), depth, strategy)
      decreases if failed then 0 else 1, |str| - i, 3
    {
      hide Token, ParseToken;
      if depth > MAX_DEPTH {
        Fail(TooDeep);
        return Null;
      }
      var ch := GetNextToken();
      if failed {
        return Null;
      }
      v := ParseFrom(ch, depth);
    }

    /** A value whose first character has just been read. */
    method ParseFrom(ch: byte, depth: nat) returns (v: Json)
      requires Valid() && !failed && i > 0 && str[i - 1] == ch
      modifies this
      ensures Valid() && i >= old(i) - 1
      ensures Reached(ParseToken(old(str[i - 1..]), depth, strategy))
      ensures v == match ParseToken(old(str[i - 1..]), depth, strategy)
                   case Done(w, _) => w
                   case Failed(_) => if ch == QUOTE then Str([]) else Null
      decreases if failed then 0 else 1, |str| - i + 1, 2
    {
      hide Token, AfterBrace, AfterBracket, Lex, ScanNumber, NumeralValue, Decoded, ParseWord;
      Slide(str, i - 1, 0);
      Slide(str, i - 1, 1);
      if ch == MINUS || Digit(ch) {
        i := i - 1;
        v := ParseNumber();
      } else if ch == 116 {
        v := Expect(TRUE_TEXT, Bool(true));
      } else if ch == 102 {
        v := Expect(FALSE_TEXT, Bool(false));
      } else if ch == 110 {
        v := Expect(NULL_TEXT, Null);
      } else if ch == QUOTE {
        var s := ParseString();
        v := Str(s);
      } else if ch == OPEN_OBJECT {
        v := ParseObject(depth);
      } else if ch == OPEN_LIST {
        v := ParseList(depth);
      } else {
        Fail(ExpectedValue);
        v := Null;
      }
    }

    /** A list after its opening bracket. */
    method ParseList(depth: nat) returns (v: Json)
      requires Valid() && !failed && i > 0
      modifies this
      ensures Valid() && i >= old(i) - 1
      ensures Reached(AfterBracket(old(Rest()), depth, strategy))
      ensures v == match AfterBracket(old(Rest()), depth, strategy) case Done(w, _) => w case Failed(_) => Null
      decreases if failed then 0 else 1, |str| - i + 1, 1
    {
      hide Token, ParseValue, ParseElements, Listed;
      ghost var whole := AfterBracket(Rest(), depth, strategy);
      var data := [];
      var ch := GetNextToken();
      if ch == CLOSE_LIST {
        return Arr([]);
      }
      if !failed {
        NoneListed(whole, ParseElements(str[i - 1..], depth, strategy));
      }
      while true
        invariant Valid() && i >= old(i)
        invariant failed ==> whole == Failed(err.value)
        invariant !failed ==> i > old(i) && Listed(whole, data, ParseElements(str[i - 1..], depth, strategy))
        decreases if failed then 0 else 1, |str| - i
      {
        i := i - 1;
        if !failed {
          OneListed(whole, data, str[i..], depth, strategy);
        }
        var element := ParseJson(depth + 1);
        data := data + [element];
        if failed {
          return Null;
        }
        ch := GetNextToken();
        if ch == CLOSE_LIST {
          return Arr(data);
        }
        if ch != COMMA {
          Fail(ExpectedElementComma);
          return Null;
        }
        ch := GetNextToken();
      }
    }

    /** An object after its opening brace. */
    method ParseObject(depth: nat) returns (v: Json)
      requires Valid() && !failed && i > 0
      modifies this
      ensures Valid() && i >= old(i) - 1
      ensures Reached(AfterBrace(old(Rest()), depth, strategy))
      ensures v == match AfterBrace(old(Rest()), depth, strategy) case Done(w, _) => w case Failed(_) => Null
      decreases if failed then 0 else 1, |str| - i + 1, 1
    {
      hide Token, ParseValue, Lex, Decoded, Insert;
      ghost var whole := AfterBrace(Rest(), depth, strategy);
      var data := [];
      var ch := GetNextToken();
      if ch == CLOSE_OBJECT {
        return Obj([]);
      }
      while true
        invariant Valid() && i >= old(i)
        invariant failed ==> whole == Failed(err.value) && ch == 0
        invariant !failed ==>
            i > old(i) && str[i - 1] == ch && Gathered(whole, ParseMembers(str[i - 1..], depth, data, strategy))
        decreases if failed then 0 else 1, |str| - i
      {
        Slide(str, i - 1, 1);
        if ch != QUOTE {
          Fail(ExpectedKey);
          return Null;
        }
        var key := ParseString();
        if failed {
          return Null;
        }
        ch := GetNextToken();
        if ch != COLON {
          Fail(ExpectedColon);
          return Null;
        }
        var member := ParseJson(depth + 1);
        data := Insert(data, key, member);
        if failed {
          return Null;
        }
        ch := GetNextToken();
        if ch == CLOSE_OBJECT {
          return Obj(data);
        }
        if ch != COMMA {
          Fail(ExpectedMemberComma);
          return Null;
        }
        ch := GetNextToken();
      }
    }
  }

  /** Json::parse: null on any error. */
  method ParseText(text: seq<byte>, strategy: Strategy) returns (v: Json, err: Option<Error>)
    ensures match Parse(text, strategy)
            case Done(w, _) => v == w && err == None
            case Failed(e) => v == Null && err == Some(e)
  {
    hide ParseValue, SkipGarbage;
    var parser := new JsonParser(text, strategy);
    v := parser.ParseJson(0);
    parser.ConsumeGarbage();
    if parser.failed {
      return Null, parser.err;
    }
    if parser.i != |text| {
      parser.Fail(Trailing);
      return Null, parser.err;
    }
    return v, None;
  }

  /** How the values left to read complete those read. */
  ghost predicate Several(whole: Multi, values: seq<Json>, left: Multi) {
    whole == Multi(values + left.values, left.rest, left.error)
  }

  ghost predicate SeveralGoOn(whole: Multi, values: seq<Json>, t: seq<byte>, strategy: Strategy) {
    if t == [] then whole == Multi(values, t, [])
    else
      match ParseValue(t, 0, strategy)
      case Failed(e) => whole == Multi(values + [FailedValue(t, strategy)], t, [e])
      case Done(v, r) =>
        match SkipGarbage(r, strategy)
        case Failed(e) => whole == Multi(values + [v], t, [e])
        case Done(_, u) => Several(whole, values + [v], ParseMulti(u, strategy))
  }

  lemma SeveralNext(whole: Multi, values: seq<Json>, t: seq<byte>, strategy: Strategy)
    requires Several(whole, values, ParseMulti(t, strategy))
    ensures SeveralGoOn(whole, values, t, strategy)
  {
    hide ParseValue, SkipGarbage, FailedValue;
    var left := ParseMulti(t, strategy);
    if t == [] {
      assert values + [] == values;
    } else {
      assert values + [left.values[0]] + left.values[1..] == values + left.values;
    }
  }

  /** Json::parse_multi, with the position where parsing stopped. */
  method ParseTexts(text: seq<byte>, strategy: Strategy) returns (values: seq<Json>, stop: nat, err: Option<Error>)
    ensures stop <= |text|
    ensures Multi(values, text[stop..], if err == None then [] else [err.value]) == ParseMulti(text, strategy)
  {
    hide ParseValue, SkipGarbage, ParseMulti, FailedValue;
    var parser := new JsonParser(text, strategy);
    ghost var whole := ParseMulti(text, strategy);
    values, stop := [], 0;
    assert Several(whole, [], whole);
    while parser.i != |text| && !parser.failed
      invariant fresh(parser) && parser.str == text && parser.strategy == strategy
      invariant parser.Valid() && !parser.failed && stop == parser.i
      invariant Several(whole, values, ParseMulti(parser.Rest(), strategy))
      decreases |text| - parser.i
    {
      SeveralNext(whole, values, parser.Rest(), strategy);
      ghost var at := parser.Rest();
      var v := parser.ParseJson(0);
      values := values + [v];
      if parser.failed {
        return values, stop, parser.err;
      }
      parser.ConsumeGarbage();
      if parser.failed {
        return values, stop, parser.err;
      }
      assert |parser.Rest()| < |at|;
      stop := parser.i;
    }
    SeveralNext(whole, values, parser.Rest(), strategy);
    return values, stop, None;
  }

  lemma LexAt(s: seq<byte>, i: nat)
    requires i <= |s|
    ensures i == |s| ==> Lex(s[i..]) == Failed(EndInString)
    ensures i < |s| && s[i] == QUOTE ==> Lex(s[i..]) == Done([], s[i + 1..])
    ensures i < |s| && s[i] <= 0x1F ==> Lex(s[i..]) == Failed(Unescaped)
    ensures i < |s| && s[i] > 0x1F && s[i] != QUOTE && s[i] != BACKSLASH ==>
        Lex(s[i..]) == Prepend(Raw(s[i]), Lex(s[i + 1..]))
    ensures i + 1 == |s| && s[i] == BACKSLASH ==> Lex(s[i..]) == Failed(EndInString)
    ensures i + 1 < |s| && s[i] == BACKSLASH && s[i + 1] == 117 ==>
      if |s| - i >= 6 && HexDigit(s[i + 2]) && HexDigit(s[i + 3]) && HexDigit(s[i + 4]) && HexDigit(s[i + 5])
      then Lex(s[i..]) == Prepend(Escaped(Hex4(s[i + 2..i + 6])), Lex(s[i + 6..]))
      else Lex(s[i..]) == Failed(BadUnicode)
    ensures i + 1 < |s| && s[i] == BACKSLASH && s[i + 1] != 117 ==>
      Lex(s[i..]) ==
        if ShortEscape(s[i + 1]) < 0 then Failed(BadEscape) else Prepend(Raw(ShortEscape(s[i + 1])), Lex(s[i + 2..]))
  {
    hide HexDigit, Hex4;
    if i < |s| { Slide(s, i, 1); Slide(s, i, 0); }
    if i + 1 < |s| && s[i] == BACKSLASH {
      Slide(s, i, 2);
      if s[i + 1] == 117 && |s| - i >= 6 {
        var t := s[i..];
        assert t[2..6] == s[i + 2..i + 6] && t[6..] == s[i + 6..];
        assert t[2] == s[i + 2] && t[3] == s[i + 3] && t[4] == s[i + 4] && t[5] == s[i + 5];
      }
    }
  }

  lemma DecodeFailed(whole: Outcome<seq<Piece>>, e: Error, last: int, out: seq<byte>)
    requires last < 0x10000 && (whole.Done? ==> Units(whole.value)) && Decoding(whole, Failed(e), last, out)
    ensures whole == Failed(e)
  {}

  lemma StartDecoding(whole: Outcome<seq<Piece>>)
    requires whole.Done? ==> Units(whole.value)
    ensures Decoding(whole, whole, -1, [])
  {
    if whole.Done? {
      assert Held(-1) + whole.value == whole.value;
      assert [] + Decoded(whole.value) == Decoded(whole.value);
    }
  }

  lemma DigitsAt(s: seq<byte>, i: nat)
    requires i <= |s|
    ensures Digits(s[i..]) == if i < |s| && Digit(s[i]) then 1 + Digits(s[i + 1..]) else 0
  {
    if i < |s| { Slide(s, i, 1); }
  }

  lemma Cut(s: seq<byte>, a: nat, n: nat)
    requires a + n <= |s|
    ensures s[a..][..n] == s[a..a + n] && s[a..][n..] == s[a + n..]
  {}

  lemma FractionAt(s: seq<byte>, i: nat)
    requires i <= |s|
    ensures ScanFraction(s[i..]) ==
      if i == |s| || s[i] != POINT then Done([], s[i..])
      else var n := Digits(s[i + 1..]); if n == 0 then Failed(NoFraction) else Done(s[i + 1..i + 1 + n], s[i + 1 + n..])
  {
    hide Digits;
    if i < |s| {
      Slide(s, i, 1);
      Cut(s, i + 1, Digits(s[i + 1..]));
    }
  }

  lemma ExponentAt(s: seq<byte>, i: nat)
    requires i <= |s|
    ensures ScanExponent(s[i..]) ==
      if i == |s| || (s[i] != 101 && s[i] != 69) then Done((false, []), s[i..])
      else
        var j := if i + 1 < |s| && (s[i + 1] == PLUS || s[i + 1] == MINUS) then i + 2 else i + 1;
        var n := Digits(s[j..]);
        if n == 0 then Failed(NoExponent) else Done((i + 1 < |s| && s[i + 1] == MINUS, s[j..j + n]), s[j + n..])
  {
    hide Digits;
    if i < |s| {
      Slide(s, i, 1);
      if i + 1 < |s| { Slide(s, i, 2); }
      var j := if i + 1 < |s| && (s[i + 1] == PLUS || s[i + 1] == MINUS) then i + 2 else i + 1;
      Cut(s, j, Digits(s[j..]));
    }
  }

  lemma NumberAt(s: seq<byte>, i: nat)
    requires i <= |s|
    ensures var neg := i < |s| && s[i] == MINUS;
            var j := if neg then i + 1 else i;
            var n := Digits(s[j..]);
            && AllDigits(s[j..j + n])
            && ScanNumber(s[i..]) ==
                 if n == 0 then Failed(InvalidNumber)
                 else if s[j] == 48 && n > 1 then Failed(LeadingZero)
                 else ScanAfter(neg, s[j..j + n], s[j + n..])
  {
    hide Digits, ScanAfter;
    var neg := i < |s| && s[i] == MINUS;
    var j := if neg then i + 1 else i;
    if neg { Slide(s, i, 1); }
    DigitsAre(s[j..]);
    Cut(s, j, Digits(s[j..]));
  }

  /** Without a point or exponent letter there is no fraction and no exponent. */
  lemma NoMore(t: seq<byte>)
    ensures Peek(t) != POINT ==> ScanFraction(t) == Done([], t)
    ensures Peek(t) != 101 && Peek(t) != 69 ==> ScanExponent(t) == Done((false, []), t)
  {}
}
