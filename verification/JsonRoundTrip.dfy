/** Reading back printed values. */
module JsonRoundTrip {
  import opened JsonStrings
  import opened JsonSyntax
  import opened JsonText

  /** The value that is read back: an int of more than nine characters comes back as a floating-point number. */
  ghost function Normal(v: Json): Json
    decreases v, 0
  {
    match v
    case Int(n) => if |IntText(n)| <= 9 then v else Double(n as real)
    case Arr(vs) => Arr(NormalElements(vs))
    case Obj(m) => Obj(NormalMembers(m))
    case _ => v
  }

  ghost function NormalElements(vs: seq<Json>): (r: seq<Json>)
    ensures |r| == |vs| && forall i :: 0 <= i < |r| ==> r[i] == Normal(vs[i])
    decreases vs, 1
  {
    if vs == [] then [] else [Normal(vs[0])] + NormalElements(vs[1..])
  }

  ghost function NormalMember(kv: (seq<byte>, Json)): (seq<byte>, Json)
    decreases kv, 1
  {
    (kv.0, Normal(kv.1))
  }

  ghost function NormalMembers(m: seq<(seq<byte>, Json)>): (r: seq<(seq<byte>, Json)>)
    ensures |r| == |m| && forall i :: 0 <= i < |r| ==> r[i] == NormalMember(m[i])
    decreases m, 1
  {
    if m == [] then [] else [NormalMember(m[0])] + NormalMembers(m[1..])
  }

  // ---------------------------------------------------------------- equality

  ghost predicate IsNumber(v: Json) { v.Int? || v.Double? }

  ghost function NumberValue(v: Json): real
    requires IsNumber(v)
  {
    if v.Int? then v.n as real else v.x
  }

  /** operator==: numbers are compared by value, whatever their representation. */
  ghost predicate Equal(a: Json, b: Json) {
    match a
    case Int(_) => IsNumber(b) && NumberValue(a) == NumberValue(b)
    case Double(_) => IsNumber(b) && NumberValue(a) == NumberValue(b)
    case Arr(vs) => b.Arr? && |vs| == |b.elems| && forall i :: 0 <= i < |vs| ==> Equal(vs[i], b.elems[i])
    case Obj(m) => b.Obj? && |m| == |b.members| &&
                   forall i :: 0 <= i < |m| ==> m[i].0 == b.members[i].0 && Equal(m[i].1, b.members[i].1)
    case _ => a == b
  }

  lemma {:induction false} NormalIsEqual(v: Json)
    ensures Equal(v, Normal(v))
  {
    match v
    case Arr(vs) => forall i | 0 <= i < |vs| ensures Equal(vs[i], Normal(vs[i])) { NormalIsEqual(vs[i]); }
    case Obj(m) => forall i | 0 <= i < |m| ensures Equal(m[i].1, Normal(m[i].1)) { NormalIsEqual(m[i].1); }
    case _ =>
  }

  // ---------------------------------------------------------------- keys

  lemma {:induction false} LessOneWay(a: seq<byte>, b: seq<byte>)
    requires Less(a, b)
    ensures !Less(b, a) && a != b
  {
    if a != [] && a[0] == b[0] { LessOneWay(a[1..], b[1..]); }
  }

  /** A key after all others goes to the end. */
  lemma {:induction false} InsertLast(m: seq<(seq<byte>, Json)>, key: seq<byte>, v: Json)
    requires forall i :: 0 <= i < |m| ==> Less(m[i].0, key)
    ensures Insert(m, key, v) == m + [(key, v)]
  {
    if m != [] {
      LessOneWay(m[0].0, key);
      InsertLast(m[1..], key, v);
    }
  }

  // ---------------------------------------------------------------- tokens

  predicate Visible(t: seq<byte>) { t != [] && !Space(t[0]) && t[0] != SLASH }

  lemma TokenHere(t: seq<byte>, strategy: Strategy)
    requires Visible(t)
    ensures Token(t, strategy) == Done(t[0], t)
  {}

  lemma TokenAfterSpace(t: seq<byte>, strategy: Strategy)
    requires Visible(t)
    ensures Token([32] + t, strategy) == Done(t[0], t)
  {
    assert ([32] + t)[1..] == t;
    assert SkipSpace([32] + t) == SkipSpace(t);
  }

  lemma TokensAtSeparator(more: seq<byte>, strategy: Strategy)
    requires Visible(more)
    ensures Token(SEPARATOR + more, strategy) == Done(COMMA, SEPARATOR + more)
    ensures Token((SEPARATOR + more)[1..], strategy) == Done(more[0], more)
  {
    hide Token;
    TokenHere(SEPARATOR + more, strategy);
    assert (SEPARATOR + more)[1..] == [32] + more;
    TokenAfterSpace(more, strategy);
  }

  lemma TextVisible(v: Json, rest: seq<byte>)
    requires Printable(v)
    ensures Text(v) != [] && Visible(Text(v)) && Visible(Text(v) + rest)
  {
    if v.Int? { DecimalValue(if v.n < 0 then -v.n else v.n); }
  }

  // ---------------------------------------------------------------- the round trip

  ghost predicate Follows(v: Json, rest: seq<byte>) { v.Int? ==> EndsNumber(rest) }

  lemma IntRoundTrip(n: int, rest: seq<byte>, depth: nat, strategy: Strategy)
    requires EndsNumber(rest)
    ensures ParseToken(IntText(n) + rest, depth, strategy) == Done(Normal(Int(n)), rest)
  {
    hide ScanNumber, Decimal;
    var a := if n < 0 then -n else n;
    ScanInt(n, rest);
    DecimalValue(a);
    assert Decimal(a) + [] == Decimal(a);
    var x := (IntText(n) + rest)[0];
    assert x == MINUS || Digit(x);
  }

  lemma WordRoundTrip(word: seq<byte>, v: Json, rest: seq<byte>)
    requires word != []
    ensures ParseWord(word + rest, word, v) == Done(v, rest)
  {
    assert (word + rest)[|word|..] == rest && (word + rest)[..|word|] == word;
  }

  /** A printed value is read back, and nothing after it is touched, exactly if it is not nested too deep. */
  lemma {:induction false} ValueRoundTrip(v: Json, rest: seq<byte>, depth: nat, strategy: Strategy)
    requires Printable(v) && Follows(v, rest)
    ensures ParseValue(Text(v) + rest, depth, strategy) == UnlessDeep(depth + Depth(v) > MAX_DEPTH, Normal(v), rest)
    decreases v, 2
  {
    hide ParseToken, Token, Text;
    TextVisible(v, rest);
    TokenHere(Text(v) + rest, strategy);
    if depth <= MAX_DEPTH { TokenRoundTrip(v, rest, depth, strategy); }
  }

  lemma {:induction false} TokenRoundTrip(v: Json, rest: seq<byte>, depth: nat, strategy: Strategy)
    requires Printable(v) && Follows(v, rest) && depth <= MAX_DEPTH && Text(v) != []
    ensures ParseToken(Text(v) + rest, depth, strategy) == UnlessDeep(depth + Depth(v) > MAX_DEPTH, Normal(v), rest)
    decreases v, 1
  {
    hide Token, ParseToken, ElementsText, MembersText, ElementsDepth, MembersDepth, NormalElements, NormalMembers;
    hide IntText, Quoted, Less;
    match v
    case Null => WordToken(NULL_TEXT, Null, rest, depth, strategy);
    case Bool(b) => WordToken(Text(v), v, rest, depth, strategy);
    case Int(n) => IntRoundTrip(n, rest, depth, strategy);
    case Str(s) => QuotedToken(s, rest, depth, strategy);
    case Arr(vs) =>
      ListRoundTrip(vs, rest, depth, strategy);
      assert Text(v) + rest == [OPEN_LIST] + (ElementsText(vs) + ([CLOSE_LIST] + rest));
    case Obj(m) =>
      ObjectRoundTrip(m, rest, depth, strategy);
      assert Text(v) + rest == [OPEN_OBJECT] + (MembersText(m) + ([CLOSE_OBJECT] + rest));
  }

  lemma WordToken(word: seq<byte>, v: Json, rest: seq<byte>, depth: nat, strategy: Strategy)
    requires (word == NULL_TEXT && v == Null) || (word == TRUE_TEXT && v == Bool(true)) ||
        (word == FALSE_TEXT && v == Bool(false))
    ensures ParseToken(word + rest, depth, strategy) == Done(v, rest)
  {
    hide Token, ParseElements, ParseMembers, Lex, ScanNumber, ParseWord;
    WordRoundTrip(word, v, rest);
    assert (word + rest)[0] == word[0];
  }

  lemma QuotedToken(s: seq<byte>, rest: seq<byte>, depth: nat, strategy: Strategy)
    ensures ParseToken(Quoted(s) + rest, depth, strategy) == Done(Str(s), rest)
  {
    hide Token, ParseElements, ParseMembers, Lex, Decoded, Body;
    StringRoundTrip(s, rest);
  }

  lemma {:induction false} ListRoundTrip(vs: seq<Json>, rest: seq<byte>, depth: nat, strategy: Strategy)
    requires depth <= MAX_DEPTH && forall i :: 0 <= i < |vs| ==> Printable(vs[i])
    ensures ParseToken([OPEN_LIST] + (ElementsText(vs) + ([CLOSE_LIST] + rest)), depth, strategy)
         == UnlessDeep(vs != [] && depth + 1 + ElementsDepth(vs) > MAX_DEPTH, Arr(NormalElements(vs)), rest)
    decreases vs, 1
  {
    hide Token, ParseElements, ParseMembers, Lex, ElementsText, ElementsDepth, Printable;
    var tail := [CLOSE_LIST] + rest;
    var inner := ElementsText(vs) + tail;
    assert ([OPEN_LIST] + inner)[1..] == inner;
    if vs == [] {
      NoElements();
      assert inner == tail && tail[1..] == rest;
      TokenHere(tail, strategy);
    } else {
      ElementsVisible(vs, tail);
      TokenHere(inner, strategy);
      ElementsRoundTrip(vs, rest, depth, strategy);
    }
  }

  lemma NoElements()
    ensures ElementsText([]) == [] && MembersText([]) == []
  {}

  lemma {:induction false} ObjectRoundTrip(m: seq<(seq<byte>, Json)>, rest: seq<byte>, depth: nat, strategy: Strategy)
    requires depth <= MAX_DEPTH && Sorted(m) && forall i :: 0 <= i < |m| ==> Printable(m[i].1)
    ensures ParseToken([OPEN_OBJECT] + (MembersText(m) + ([CLOSE_OBJECT] + rest)), depth, strategy)
         == UnlessDeep(m != [] && depth + 1 + MembersDepth(m) > MAX_DEPTH, Obj(NormalMembers(m)), rest)
    decreases m, 1
  {
    hide Token, ParseElements, ParseMembers, Lex, MembersText, MembersDepth, Printable, Sorted;
    var tail := [CLOSE_OBJECT] + rest;
    var inner := MembersText(m) + tail;
    assert ([OPEN_OBJECT] + inner)[1..] == inner;
    if m == [] {
      NoElements();
      assert inner == tail && tail[1..] == rest;
      TokenHere(tail, strategy);
    } else {
      MembersVisible(m, tail);
      TokenHere(inner, strategy);
      assert [] + m == m && [] + NormalMembers(m) == NormalMembers(m);
      MembersRoundTrip(m, [], rest, depth, strategy);
    }
  }

  lemma ElementsVisible(vs: seq<Json>, rest: seq<byte>)
    requires vs != [] && Printable(vs[0])
    ensures ElementsText(vs) != [] && Visible(ElementsText(vs) + rest) && (ElementsText(vs) + rest)[0] == Text(vs[0])[0]
    ensures (ElementsText(vs) + rest)[0] != CLOSE_LIST
  {
    hide Text;
    TextVisible(vs[0], rest);
    TextOpens(vs[0]);
  }

  lemma TextOpens(v: Json)
    requires Printable(v)
    ensures Text(v) != [] && Text(v)[0] != CLOSE_LIST
  {
    if v.Int? { DecimalValue(if v.n < 0 then -v.n else v.n); }
  }

  lemma MembersVisible(m: seq<(seq<byte>, Json)>, rest: seq<byte>)
    requires m != []
    ensures MembersText(m) != [] && Visible(MembersText(m) + rest) && (MembersText(m) + rest)[0] == QUOTE
  {
    assert MemberText(m[0])[0] == QUOTE;
  }

  lemma {:induction false} ElementsRoundTrip(vs: seq<Json>, rest: seq<byte>, depth: nat, strategy: Strategy)
    requires vs != [] && forall i :: 0 <= i < |vs| ==> Printable(vs[i])
    ensures ParseElements(ElementsText(vs) + ([CLOSE_LIST] + rest), depth, strategy)
         == UnlessDeep(depth + 1 + ElementsDepth(vs) > MAX_DEPTH, NormalElements(vs), rest)
    decreases vs, 0
  {
    hide Text, Printable, ParseValue, Token, Normal, Depth;
    var v, tail := vs[0], [CLOSE_LIST] + rest;
    if |vs| == 1 {
      ValueRoundTrip(v, tail, depth + 1, strategy);
      TokenHere(tail, strategy);
      assert tail[1..] == rest;
      assert NormalElements(vs) == [Normal(v)];
    } else {
      var more := ElementsText(vs[1..]) + tail;
      var after := SEPARATOR + more;
      assert ElementsText(vs) + tail == Text(v) + after;
      ValueRoundTrip(v, after, depth + 1, strategy);
      ElementsVisible(vs[1..], tail);
      TokensAtSeparator(more, strategy);
      ElementsRoundTrip(vs[1..], rest, depth, strategy);
    }
  }

  /** One member is read back. */
  lemma {:induction false} MemberRoundTrip(kv: (seq<byte>, Json), rest: seq<byte>, depth: nat, strategy: Strategy)
    requires Printable(kv.1) && Follows(kv.1, rest)
    ensures MemberText(kv) != []
    ensures ParseMember(MemberText(kv) + rest, depth, strategy)
         == UnlessDeep(depth + 1 + MemberDepth(kv) > MAX_DEPTH, NormalMember(kv), rest)
    decreases kv, 3
  {
    hide Text, Printable, ParseValue, Token, Normal, Depth, Quoted, Lex, Decoded;
    var after := Text(kv.1) + rest;
    var colon := [COLON, 32] + after;
    assert MemberText(kv) + rest == Quoted(kv.0) + colon;
    StringRoundTrip(kv.0, colon);
    TokenHere(colon, strategy);
    assert colon[1..] == [32] + after;
    TextVisible(kv.1, rest);
    SpaceBefore(after, depth + 1, strategy);
    ValueRoundTrip(kv.1, rest, depth + 1, strategy);
  }

  /** A space before a value makes no difference. */
  lemma SpaceBefore(t: seq<byte>, depth: nat, strategy: Strategy)
    requires Visible(t)
    ensures ParseValue([32] + t, depth, strategy) == ParseValue(t, depth, strategy)
  {
    hide Token, ParseToken;
    TokenAfterSpace(t, strategy);
    TokenHere(t, strategy);
  }

  lemma {:induction false} MembersRoundTrip(
    m: seq<(seq<byte>, Json)>, before: seq<(seq<byte>, Json)>, rest: seq<byte>, depth: nat, strategy: Strategy)
    requires m != [] && forall i :: 0 <= i < |m| ==> Printable(m[i].1)
    requires Sorted(before + m)
    ensures MembersText(m) != []
    ensures ParseMembers(MembersText(m) + ([CLOSE_OBJECT] + rest), depth, before, strategy)
         == UnlessDeep(depth + 1 + MembersDepth(m) > MAX_DEPTH, before + NormalMembers(m), rest)
    decreases m, 0
  {
    hide MemberText, Printable, ParseMember, ParseMembers, Token, NormalMember, NormalMembers, MemberDepth, Sorted;
    hide Insert;
    var kv, tail := m[0], [CLOSE_OBJECT] + rest;
    var added := NormalMember(kv);
    var t := MembersText(m) + tail;
    InsertNext(before, m, added);
    NormalNext(before, m);
    if |m| == 1 {
      MemberRoundTrip(kv, tail, depth, strategy);
      TokenHere(tail, strategy);
      assert tail[1..] == rest;
      MembersEnd(t, tail, depth, before, strategy);
    } else {
      var more := MembersText(m[1..]) + tail;
      var after := SEPARATOR + more;
      MemberTextNext(m, tail);
      MemberRoundTrip(kv, after, depth, strategy);
      MembersVisible(m[1..], tail);
      TokensAtSeparator(more, strategy);
      MembersNext(t, after, more, depth, before, strategy);
      SortedNext(before, m, added);
      MembersRoundTrip(m[1..], before + [added], rest, depth, strategy);
    }
  }

  lemma MemberTextNext(m: seq<(seq<byte>, Json)>, tail: seq<byte>)
    requires |m| > 1
    ensures MembersText(m) + tail == MemberText(m[0]) + (SEPARATOR + (MembersText(m[1..]) + tail))
  {
    hide MemberText;
  }

  lemma NormalNext(before: seq<(seq<byte>, Json)>, m: seq<(seq<byte>, Json)>)
    requires m != []
    ensures before + NormalMembers(m) == before + [NormalMember(m[0])] + NormalMembers(m[1..])
    ensures |m| == 1 ==> before + NormalMembers(m) == before + [NormalMember(m[0])]
  {
    hide Normal, NormalMember;
    AppendNext(before, NormalMember(m[0]), NormalMembers(m[1..]));
  }

  lemma AppendNext<T>(a: seq<T>, x: T, b: seq<T>)
    ensures a + ([x] + b) == a + [x] + b && (b == [] ==> a + ([x] + b) == a + [x])
  {}

  lemma MembersEnd(t: seq<byte>, r: seq<byte>, depth: nat, m: seq<(seq<byte>, Json)>, strategy: Strategy)
    requires t != [] && Token(r, strategy) == Done(CLOSE_OBJECT, r)
    ensures var o := ParseMember(t, depth, strategy);
            o.Done? && o.rest == r ==>
              ParseMembers(t, depth, m, strategy) == Done(Insert(m, o.value.0, o.value.1), r[1..])
    ensures ParseMember(t, depth, strategy).Failed? ==>
        ParseMembers(t, depth, m, strategy) == Failed(ParseMember(t, depth, strategy).error)
  {
    hide ParseMember, Token, Insert;
  }

  lemma MembersNext(t: seq<byte>, r: seq<byte>, w: seq<byte>, depth: nat, m: seq<(seq<byte>, Json)>, strategy: Strategy)
    requires t != [] && w != [] && Token(r, strategy) == Done(COMMA, r) && Token(r[1..], strategy) == Done(w[0], w)
    ensures var o := ParseMember(t, depth, strategy);
            o.Done? && o.rest == r ==>
              ParseMembers(t, depth, m, strategy) == ParseMembers(w, depth, Insert(m, o.value.0, o.value.1), strategy)
    ensures ParseMember(t, depth, strategy).Failed? ==>
        ParseMembers(t, depth, m, strategy) == Failed(ParseMember(t, depth, strategy).error)
  {
    hide ParseMember, Token, Insert;
  }

  lemma InsertNext(before: seq<(seq<byte>, Json)>, m: seq<(seq<byte>, Json)>, added: (seq<byte>, Json))
    requires m != [] && Sorted(before + m) && added == NormalMember(m[0])
    ensures added.0 == m[0].0 && Insert(before, added.0, added.1) == before + [added]
  {
    hide Insert;
    var all := before + m;
    forall i | 0 <= i < |before| ensures Less(before[i].0, m[0].0) {
      assert Less(all[i].0, all[|before|].0);
    }
    InsertLast(before, added.0, added.1);
  }

  lemma SortedNext(before: seq<(seq<byte>, Json)>, m: seq<(seq<byte>, Json)>, added: (seq<byte>, Json))
    requires m != [] && Sorted(before + m) && added.0 == m[0].0
    ensures Sorted(before + [added] + m[1..])
  {
    var all, all' := before + m, before + [added] + m[1..];
    assert |all| == |all'| && forall i :: 0 <= i < |all| ==> all[i].0 == all'[i].0;
  }
}
