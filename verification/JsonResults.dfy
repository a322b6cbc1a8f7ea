/** What holds of whole texts: printing and parsing are inverse on values, and parsing gives normal forms. */
module JsonResults {
  import opened JsonStrings
  import opened JsonSyntax
  import opened JsonGarbage
  import opened JsonText
  import opened JsonRoundTrip

  lemma SkipToVisible(t: seq<byte>, rest: seq<byte>, strategy: Strategy)
    requires WsOk(t, strategy) && (rest == [] || Visible(rest))
    ensures SkipGarbage(t + rest, strategy) == Done((), rest)
  {
    hide WsOk;
    SkipWs(t, rest, strategy);
  }

  lemma SpacesBefore(t: seq<byte>, v: Json, rest: seq<byte>, depth: nat, strategy: Strategy)
    requires WsOk(t, strategy) && Printable(v)
    ensures ParseValue(t + (Text(v) + rest), depth, strategy) == ParseValue(Text(v) + rest, depth, strategy)
  {
    hide Text, Printable, ParseToken, SkipGarbage, WsOk;
    TextVisible(v, rest);
    NoGarbage(strategy);
    SkipToVisible(t, Text(v) + rest, strategy);
    assert [] + (Text(v) + rest) == Text(v) + rest;
    SkipToVisible([], Text(v) + rest, strategy);
  }

  lemma SpaceEnds(v: Json, space: seq<byte>, rest: seq<byte>, strategy: Strategy)
    requires WsOk(space, strategy) && (space != [] || rest == [] || !v.Int?)
    ensures Follows(v, space + rest)
  {
    if space != [] { GarbageStarts(space, rest, strategy); }
  }

  lemma GarbageStarts(space: seq<byte>, rest: seq<byte>, strategy: Strategy)
    requires WsOk(space, strategy) && space != []
    ensures EndsNumber(space + rest)
  {
    WsHead(space, strategy);
    assert (space + rest)[0] == space[0];
  }

  /** Parsing the text of a value, with any white space around it, and comments if they are allowed, gives an equal
      value exactly if the value is nested at most two hundred deep. */
  lemma ParseRoundTrip(v: Json, before: seq<byte>, after: seq<byte>, strategy: Strategy)
    requires Printable(v) && WsOk(before, strategy) && TrailingOk(after, strategy)
    ensures Equal(v, Normal(v))
    ensures Parse(before + (Text(v) + after), strategy) ==
            if Depth(v) <= 200 then Done(Normal(v), []) else Failed(TooDeep)
  {
    hide Text, Printable, ParseValue, SkipGarbage, Depth, Normal, Equal, WsOk, TrailingOk;
    NormalIsEqual(v);
    SpacesBefore(before, v, after, 0, strategy);
    if after != [] { TrailingHead(after, strategy); }
    ValueRoundTrip(v, after, 0, strategy);
    SkipTrailing(after, strategy);
  }

  // ---------------------------------------------------------------- several values

  /** Texts of values, each with the space after it. */
  function MultiText(vs: seq<Json>, spaces: seq<seq<byte>>): seq<byte>
    requires |vs| == |spaces|
  {
    if vs == [] then [] else Text(vs[0]) + (spaces[0] + MultiText(vs[1..], spaces[1..]))
  }

  ghost predicate Separated(vs: seq<Json>, spaces: seq<seq<byte>>, strategy: Strategy) {
    && |vs| == |spaces|
    && (forall i :: 0 <= i < |vs| ==> Printable(vs[i]) && Depth(vs[i]) <= MAX_DEPTH && WsOk(spaces[i], strategy))
    && (forall i :: 0 <= i < |vs| - 1 ==> spaces[i] != [] || !vs[i].Int?)
  }

  /** Values printed one after the other, with white space or comments between them, are all read back. */
  lemma {:induction false} MultiRoundTrip(before: seq<byte>, vs: seq<Json>, spaces: seq<seq<byte>>, strategy: Strategy)
    requires vs != [] && WsOk(before, strategy) && Separated(vs, spaces, strategy)
    ensures ParseMulti(before + MultiText(vs, spaces), strategy) == Multi(NormalElements(vs), [], [])
    decreases |vs|
  {
    hide Text, Printable, ParseValue, SkipGarbage, Depth, Normal, WsOk;
    var v, space := vs[0], spaces[0];
    var more := MultiText(vs[1..], spaces[1..]);
    var t := before + MultiText(vs, spaces);
    TextVisible(v, space + more);
    SpacesBefore(before, v, space + more, 0, strategy);
    SpaceEnds(v, space, more, strategy);
    ValueRoundTrip(v, space + more, 0, strategy);
    NormalNow(vs);
    if |vs| == 1 {
      SkipToVisible(space, more, strategy);
    } else {
      MultiVisible(vs[1..], spaces[1..]);
      SkipToVisible(space, more, strategy);
      NoGarbage(strategy);
      assert [] + more == more;
      MultiRoundTrip([], vs[1..], spaces[1..], strategy);
    }
  }

  lemma NormalNow(vs: seq<Json>)
    requires vs != []
    ensures NormalElements(vs) == [Normal(vs[0])] + NormalElements(vs[1..])
    ensures |vs| == 1 ==> NormalElements(vs) == [Normal(vs[0])]
  {
    hide Normal;
  }

  lemma MultiVisible(vs: seq<Json>, spaces: seq<seq<byte>>)
    requires vs != [] && |vs| == |spaces| && Printable(vs[0])
    ensures Visible(MultiText(vs, spaces))
  {
    hide Text, Printable;
    TextVisible(vs[0], spaces[0] + MultiText(vs[1..], spaces[1..]));
  }

  // ---------------------------------------------------------------- what parsing gives

  /** Keys in order and not repeated, ints of at most nine characters. */
  ghost predicate Read(v: Json) {
    match v
    case Int(n) => |IntText(n)| <= 9
    case Arr(vs) => forall i :: 0 <= i < |vs| ==> Read(vs[i])
    case Obj(m) => Sorted(m) && forall i :: 0 <= i < |m| ==> Read(m[i].1)
    case _ => true
  }

  lemma {:induction false} LessTransitive(a: seq<byte>, b: seq<byte>, c: seq<byte>)
    requires Less(a, b) && Less(b, c)
    ensures Less(a, c)
  {
    if a != [] && a[0] == b[0] && b[0] == c[0] { LessTransitive(a[1..], b[1..], c[1..]); }
  }

  lemma {:induction false} LessTotal(a: seq<byte>, b: seq<byte>)
    ensures Less(a, b) || a == b || Less(b, a)
  {
    if a != [] && b != [] && a[0] == b[0] {
      LessTotal(a[1..], b[1..]);
      assert a == [a[0]] + a[1..] && b == [b[0]] + b[1..];
    }
  }

  /** Inserting keeps the keys in order; a repeated key has the value that came last. */
  lemma {:induction false} InsertSorted(m: seq<(seq<byte>, Json)>, key: seq<byte>, v: Json)
    requires Sorted(m)
    ensures Sorted(Insert(m, key, v))
    ensures forall kv :: kv in Insert(m, key, v) <==> kv == (key, v) || (kv in m && kv.0 != key)
  {
    if m != [] {
      var first, rest := m[0], m[1..];
      assert m == [first] + rest;
      LessTotal(key, first.0);
      if Less(key, first.0) {
        FirstLeast(m, key);
        SortedCons((key, v), m);
        KeysDiffer(m, key);
      } else if first.0 == key {
        FirstLeast(rest, key);
        SortedCons((key, v), rest);
        KeysDiffer(rest, key);
      } else {
        InsertSorted(rest, key, v);
        LessOneWay(first.0, key);
        forall kv | kv in Insert(rest, key, v) ensures Less(first.0, kv.0) {
          if kv in rest { var i :| 0 <= i < |rest| && rest[i] == kv; assert m[i + 1] == kv; }
        }
        SortedCons(first, Insert(rest, key, v));
      }
    }
  }

  lemma FirstLeast(m: seq<(seq<byte>, Json)>, key: seq<byte>)
    requires Sorted(m) && (m != [] ==> Less(key, m[0].0))
    ensures forall kv :: kv in m ==> Less(key, kv.0)
  {
    forall kv | kv in m ensures Less(key, kv.0) {
      var i :| 0 <= i < |m| && m[i] == kv;
      if i > 0 { LessTransitive(key, m[0].0, m[i].0); }
    }
  }

  lemma KeysDiffer(m: seq<(seq<byte>, Json)>, key: seq<byte>)
    requires forall kv :: kv in m ==> Less(key, kv.0)
    ensures forall kv :: kv in m ==> kv.0 != key
  {
    forall kv | kv in m ensures kv.0 != key { LessOneWay(key, kv.0); }
  }

  lemma SortedCons(first: (seq<byte>, Json), m: seq<(seq<byte>, Json)>)
    requires Sorted(m) && forall kv :: kv in m ==> Less(first.0, kv.0)
    ensures Sorted([first] + m)
  {
    var all := [first] + m;
    forall i, j | 0 <= i < j < |all| ensures Less(all[i].0, all[j].0) {
      assert all[j] == m[j - 1] && m[j - 1] in m;
      if i > 0 { assert all[i] == m[i - 1]; }
    }
  }

  /** Digits without a leading zero are the decimal text of their value. */
  lemma {:induction false} DecimalOfValue(t: seq<byte>)
    requires t != [] && AllDigits(t) && (t[0] == 48 ==> |t| == 1)
    ensures Decimal(DigitsValue(t)) == t
  {
    var front := t[..|t| - 1];
    if |t| > 1 {
      DecimalOfValue(front);
      DecimalValue(DigitsValue(front));
      assert t == front + [t[|t| - 1]];
    } else {
      assert front == [];
    }
  }

  lemma NumeralRead(t: seq<byte>)
    requires ScanNumber(t).Done?
    ensures Read(NumeralValue(ScanNumber(t).value))
  {
    hide DigitsValue, Decimal, ScanFraction, ScanExponent, Pow10;
    var m := ScanNumber(t).value;
    var u := if m.neg then t[1..] else t;
    assert m.whole == u[..|m.whole|] && |m.whole| > 0;
    DecimalOfValue(m.whole);
    DecimalZero();
  }

  /** Values read, none nested deeper than a bound. */
  ghost predicate MembersRead(m: seq<(seq<byte>, Json)>, bound: int) {
    Sorted(m) && forall kv :: kv in m ==> Read(kv.1) && Depth(kv.1) <= bound
  }

  lemma {:induction false} MembersDepthBound(m: seq<(seq<byte>, Json)>, bound: nat)
    requires forall kv :: kv in m ==> Depth(kv.1) <= bound
    ensures MembersDepth(m) <= bound
  {
    hide Depth;
    if m != [] { 
      assert m[0] in m;
      MembersDepthBound(m[1..], bound);
      MemberDepthIs(m[0]);
    }
  }

  lemma MemberDepthIs(kv: (seq<byte>, Json))
    ensures MemberDepth(kv) == Depth(kv.1)
  {}

  /** Whatever the parser accepts has its keys in order, without repetition, and is not nested too deep. */
  lemma {:induction false} ParsedIsRead(t: seq<byte>, depth: nat, strategy: Strategy)
    requires ParseValue(t, depth, strategy).Done?
    ensures var v := ParseValue(t, depth, strategy).value; Read(v) && depth + Depth(v) <= 200
    decreases |t|, 1
  {
    hide Token, ParseToken, Read, Depth;
    ParsedToken(Token(t, strategy).rest, depth, strategy);
  }

  lemma {:induction false} ParsedToken(u: seq<byte>, depth: nat, strategy: Strategy)
    requires u != [] && depth <= MAX_DEPTH && ParseToken(u, depth, strategy).Done?
    ensures var v := ParseToken(u, depth, strategy).value; Read(v) && depth + Depth(v) <= MAX_DEPTH
    decreases |u|, 0
  {
    hide Token, ScanNumber, NumeralValue, Lex, Decoded, ParseElements, ParseMembers, ElementsDepth, MembersDepth;
    hide IntText;
    var c := u[0];
    if c == MINUS || Digit(c) {
      NumeralRead(u);
      NumeralShallow(ScanNumber(u).value);
    } else if c == OPEN_LIST {
      var o := Token(u[1..], strategy);
      if o.value != CLOSE_LIST { ParsedElements(o.rest, depth, strategy); }
    } else if c == OPEN_OBJECT {
      var o := Token(u[1..], strategy);
      if o.value != CLOSE_OBJECT {
        ParsedMembers(o.rest, depth, [], strategy);
        var m := ParseMembers(o.rest, depth, [], strategy).value;
        assert forall i :: 0 <= i < |m| ==> m[i] in m;
        if m != [] { assert m[0] in m; MembersDepthBound(m, MAX_DEPTH - depth - 1); }
      }
    }
  }

  lemma NumeralShallow(m: Numeral)
    requires m.Ok()
    ensures Depth(NumeralValue(m)) == 0
  {}

  lemma {:induction false} ParsedElements(t: seq<byte>, depth: nat, strategy: Strategy)
    requires ParseElements(t, depth, strategy).Done?
    ensures var vs := ParseElements(t, depth, strategy).value;
            vs != [] && (forall i :: 0 <= i < |vs| ==> Read(vs[i])) && depth + 1 + ElementsDepth(vs) <= MAX_DEPTH
    decreases |t|, 2
  {
    hide Token, ParseValue, Read, Depth;
    ParsedIsRead(t, depth + 1, strategy);
    var r := ParseValue(t, depth + 1, strategy).rest;
    var u := Token(r, strategy).rest;
    var vs := ParseElements(t, depth, strategy).value;
    if u[0] == COMMA {
      ParsedElements(Token(u[1..], strategy).rest, depth, strategy);
      assert vs[1..] == ParseElements(Token(u[1..], strategy).rest, depth, strategy).value;
    } else {
      assert vs[1..] == [] && ElementsDepth(vs[1..]) == 0;
    }
  }

  lemma {:induction false} ParsedMember(t: seq<byte>, depth: nat, strategy: Strategy)
    requires t != [] && ParseMember(t, depth, strategy).Done?
    ensures var kv := ParseMember(t, depth, strategy).value; Read(kv.1) && depth + 1 + Depth(kv.1) <= MAX_DEPTH
    decreases |t|, 2
  {
    hide Token, ParseValue, Lex, Decoded, Read, Depth;
    var r := Lex(t[1..]).rest;
    var u := Token(r, strategy).rest;
    ParsedIsRead(u[1..], depth + 1, strategy);
  }

  lemma {:induction false} ParsedMembers(t: seq<byte>, depth: nat, m: seq<(seq<byte>, Json)>, strategy: Strategy)
    requires t != [] && ParseMembers(t, depth, m, strategy).Done? && MembersRead(m, MAX_DEPTH - depth - 1)
    ensures MembersRead(ParseMembers(t, depth, m, strategy).value, MAX_DEPTH - depth - 1)
    decreases |t|, 3
  {
    hide Token, ParseMember, Insert, Read, Depth, Sorted;
    var o := ParseMember(t, depth, strategy);
    ParsedMember(t, depth, strategy);
    InsertSorted(m, o.value.0, o.value.1);
    var u := Token(o.rest, strategy).rest;
    if u[0] == COMMA {
      ParsedMembers(Token(u[1..], strategy).rest, depth, Insert(m, o.value.0, o.value.1), strategy);
    }
  }

  ghost predicate NoDouble(v: Json) {
    match v
    case Double(_) => false
    case Arr(vs) => forall i :: 0 <= i < |vs| ==> NoDouble(vs[i])
    case Obj(m) => forall i :: 0 <= i < |m| ==> NoDouble(m[i].1)
    case _ => true
  }

  lemma {:induction false} ShortInt(n: int)
    requires |IntText(n)| <= 9
    ensures -0x8000_0000 <= n < 0x8000_0000
  {
    var a := if n < 0 then -n else n;
    DecimalBound(a, 9);
  }

  function Power(k: nat): nat { if k == 0 then 1 else 10 * Power(k - 1) }

  lemma {:induction false} DecimalBound(n: nat, k: nat)
    requires |Decimal(n)| <= k
    ensures n < Power(k) && (k == 9 ==> Power(k) == 1_000_000_000)
  {
    if n >= 10 { DecimalBound(n / 10, k - 1); }
    PowerAt(k);
  }

  lemma PowerAt(k: nat)
    ensures Power(k) > 0 && (k > 0 ==> Power(k) >= 10) && Power(9) == 1_000_000_000
  {
    assert Power(3) == 1000 && Power(6) == 1_000_000 && Power(9) == 1_000_000_000;
  }

  /** Values read, floating-point numbers aside, are printable and normal. */
  lemma {:induction false} ReadIsNormal(v: Json)
    requires Read(v) && NoDouble(v)
    ensures Printable(v) && Normal(v) == v
  {
    match v
    case Int(n) => ShortInt(n);
    case Arr(vs) =>
      forall i | 0 <= i < |vs| ensures Printable(vs[i]) && Normal(vs[i]) == vs[i] { ReadIsNormal(vs[i]); }
      assert NormalElements(vs) == vs;
    case Obj(m) =>
      forall i | 0 <= i < |m| ensures Printable(m[i].1) && NormalMember(m[i]) == m[i] { ReadIsNormal(m[i].1); }
      assert NormalMembers(m) == m;
    case _ =>
  }

  /** Printing what was parsed and parsing it again changes nothing. */
  lemma ParsePrintParse(t: seq<byte>, strategy: Strategy)
    requires Parse(t, strategy).Done? && NoDouble(Parse(t, strategy).value)
    ensures Parse(Text(Parse(t, strategy).value), strategy) == Parse(t, strategy)
  {
    hide ParseValue, SkipGarbage, Read, NoDouble, Text, Depth, Printable, Normal;
    var v := Parse(t, strategy).value;
    ParsedIsRead(t, 0, strategy);
    ReadIsNormal(v);
    NoGarbage(strategy);
    ParseRoundTrip(v, [], [], strategy);
    assert [] + (Text(v) + []) == Text(v);
  }
}
