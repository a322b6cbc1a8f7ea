/** The printer as it runs: every overload appends to the text so far. */
module JsonPrinter {
  import opened JsonStrings
  import opened JsonSyntax
  import opened JsonText

  /** The character at a position; the terminating NUL at the end. */
  function At(s: seq<byte>, k: nat): byte {
    if k < |s| then s[k] else 0
  }

  lemma BodyAt(s: seq<byte>, i: nat)
    requires i < |s|
    ensures var separator := s[i] == 0xE2 && At(s, i + 1) == 0x80 && (At(s, i + 2) == 0xA8 || At(s, i + 2) == 0xA9);
      Body(s[i..]) ==
        if separator then [BACKSLASH, 117, 50, 48, 50, if s[i + 2] == 0xA8 then 56 else 57] + Body(s[i + 3..])
                      else EscapeByte(s[i]) + Body(s[i + 1..])
  {
    hide EscapeByte;
    var t := s[i..];
    assert |t| > 1 ==> t[1] == s[i + 1];
    assert |t| > 2 ==> t[2] == s[i + 2];
    assert |t| > 2 ==> t[3..] == s[i + 3..];
    assert t[1..] == s[i + 1..];
  }

  method DumpString(value: seq<byte>, out: seq<byte>) returns (r: seq<byte>)
    ensures r == out + Quoted(value)
  {
    hide Body, EscapeByte;
    r := out + [QUOTE];
    var i := 0;
    while i < |value|
      invariant 0 <= i <= |value| && r + Body(value[i..]) == out + [QUOTE] + Body(value)
      decreases |value| - i
    {
      BodyAt(value, i);
      var ch := value[i];
      ghost var was, at := r, i;
      if ch == 0xE2 && At(value, i + 1) == 0x80 && At(value, i + 2) == 0xA8 {
        r := r + [BACKSLASH, 117, 50, 48, 50, 56];
        i := i + 2;
      } else if ch == 0xE2 && At(value, i + 1) == 0x80 && At(value, i + 2) == 0xA9 {
        r := r + [BACKSLASH, 117, 50, 48, 50, 57];
        i := i + 2;
      } else {
        var escaped := DumpByte(ch);
        r := r + escaped;
      }
      i := i + 1;
      assert r + Body(value[i..]) == was + Body(value[at..]);
    }
    BodyNothing();
    assert value[i..] == [] && value[0..] == value;
    assert r + [] == r;
    r := r + [QUOTE];
    assert out + [QUOTE] + Body(value) + [QUOTE] == out + Quoted(value);
  }

  lemma BodyNothing()
    ensures Body([]) == []
  {}

  method DumpByte(ch: byte) returns (r: seq<byte>)
    ensures r == EscapeByte(ch)
  {
    if ch == BACKSLASH { r := [BACKSLASH, BACKSLASH]; }
    else if ch == QUOTE { r := [BACKSLASH, QUOTE]; }
    else if ch == 8 { r := [BACKSLASH, 98]; }
    else if ch == 12 { r := [BACKSLASH, 102]; }
    else if ch == 10 { r := [BACKSLASH, 110]; }
    else if ch == 13 { r := [BACKSLASH, 114]; }
    else if ch == 9 { r := [BACKSLASH, 116]; }
    else if ch <= 0x1F { r := [BACKSLASH, 117, 48, 48, HexText(ch / 16), HexText(ch % 16)]; }
    else { r := [ch]; }
  }

  method Dump(v: Json, out: seq<byte>) returns (r: seq<byte>)
    requires Printable(v)
    ensures r == out + Text(v)
    decreases v
  {
    match v
    case Null => r := out + NULL_TEXT;
    case Bool(b) => r := out + if b then TRUE_TEXT else FALSE_TEXT;
    case Int(n) => r := out + IntText(n);
    case Str(s) => r := DumpString(s, out);
    case Arr(vs) => r := DumpList(vs, out);
    case Obj(m) => r := DumpObject(m, out);
  }

  /** What is still to be written after `i` of the elements. */
  ghost function ElementsLeft(vs: seq<Json>, i: nat): seq<byte>
    requires i <= |vs|
  {
    if i == 0 || i == |vs| then ElementsText(vs[i..]) else SEPARATOR + ElementsText(vs[i..])
  }

  lemma ElementsNext(vs: seq<Json>, i: nat)
    requires i < |vs|
    ensures ElementsLeft(vs, i) == (if i == 0 then [] else SEPARATOR) + Text(vs[i]) + ElementsLeft(vs, i + 1)
  {
    hide Text;
    assert vs[i..][1..] == vs[i + 1..];
    assert i + 1 < |vs| ==> ElementsText(vs[i..]) == Text(vs[i]) + SEPARATOR + ElementsText(vs[i + 1..]);
  }

  method DumpList(vs: seq<Json>, out: seq<byte>) returns (r: seq<byte>)
    requires forall i :: 0 <= i < |vs| ==> Printable(vs[i])
    ensures r == out + Text(Arr(vs))
    decreases vs
  {
    hide Printable, ElementsText, ElementsLeft, MembersText;
    var first := true;
    r := out + [OPEN_LIST];
    NothingLeft(vs);
    for i := 0 to |vs|
      invariant first <==> i == 0
      invariant r + ElementsLeft(vs, i) == out + [OPEN_LIST] + ElementsText(vs)
    {
      ElementsNext(vs, i);
      ghost var was := r;
      if !first {
        r := r + SEPARATOR;
      }
      r := Dump(vs[i], r);
      assert r == was + (if first then [] else SEPARATOR) + Text(vs[i]);
      assert r + ElementsLeft(vs, i + 1) == was + ElementsLeft(vs, i);
      first := false;
    }
    assert r + [] == r;
    r := r + [CLOSE_LIST];
    assert out + [OPEN_LIST] + ElementsText(vs) + [CLOSE_LIST] == out + Text(Arr(vs));
  }

  lemma NothingLeft(vs: seq<Json>)
    ensures ElementsLeft(vs, 0) == ElementsText(vs) && ElementsLeft(vs, |vs|) == []
  {
    hide Text;
    assert vs[0..] == vs && vs[|vs|..] == [];
  }

  ghost function MembersLeft(m: seq<(seq<byte>, Json)>, i: nat): seq<byte>
    requires i <= |m|
  {
    if i == 0 || i == |m| then MembersText(m[i..]) else SEPARATOR + MembersText(m[i..])
  }

  lemma MembersNext(m: seq<(seq<byte>, Json)>, i: nat)
    requires i < |m|
    ensures MembersLeft(m, i) == (if i == 0 then [] else SEPARATOR) + MemberText(m[i]) + MembersLeft(m, i + 1)
  {
    hide MemberText;
    assert m[i..][1..] == m[i + 1..];
    assert i + 1 < |m| ==> MembersText(m[i..]) == MemberText(m[i]) + SEPARATOR + MembersText(m[i + 1..]);
  }

  lemma NoMembersLeft(m: seq<(seq<byte>, Json)>)
    ensures MembersLeft(m, 0) == MembersText(m) && MembersLeft(m, |m|) == []
  {
    hide MemberText;
    assert m[0..] == m && m[|m|..] == [];
  }

  method DumpMember(kv: (seq<byte>, Json), out: seq<byte>) returns (r: seq<byte>)
    requires Printable(kv.1)
    ensures r == out + MemberText(kv)
    decreases kv
  {
    hide Printable, Text, Quoted;
    r := DumpString(kv.0, out);
    r := r + [COLON, 32];
    r := Dump(kv.1, r);
  }

  method DumpObject(m: seq<(seq<byte>, Json)>, out: seq<byte>) returns (r: seq<byte>)
    requires forall i :: 0 <= i < |m| ==> Printable(m[i].1)
    ensures r == out + Text(Obj(m))
    decreases m
  {
    hide Printable, MembersText, MembersLeft, ElementsText, MemberText;
    var first := true;
    r := out + [OPEN_OBJECT];
    NoMembersLeft(m);
    for i := 0 to |m|
      invariant first <==> i == 0
      invariant r + MembersLeft(m, i) == out + [OPEN_OBJECT] + MembersText(m)
    {
      MembersNext(m, i);
      ghost var was := r;
      if !first {
        r := r + SEPARATOR;
      }
      r := DumpMember(m[i], r);
      assert r == was + (if first then [] else SEPARATOR) + MemberText(m[i]);
      assert r + MembersLeft(m, i + 1) == was + MembersLeft(m, i);
      first := false;
    }
    assert r + [] == r;
    r := r + [CLOSE_OBJECT];
    assert out + [OPEN_OBJECT] + MembersText(m) + [CLOSE_OBJECT] == out + Text(Obj(m));
  }
}
