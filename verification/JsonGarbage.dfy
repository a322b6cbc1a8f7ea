/** What may stand between tokens: white space (section 2 of RFC 8259) and, where they are allowed, comments. */
module JsonGarbage {
  import opened JsonStrings
  import opened JsonSyntax

  /** One white space character, a comment up to the end of its line, or one between its marks. */
  datatype Gap = Blank(b: byte) | Line(text: seq<byte>) | Block(text: seq<byte>)

  ghost function GapText(g: Gap): seq<byte> {
    match g
    case Blank(b) => [b]
    case Line(text) => [SLASH, SLASH] + (text + [NEWLINE])
    case Block(text) => [SLASH, STAR] + (text + [STAR, SLASH])
  }

  /** The closing mark does not come earlier. */
  ghost predicate OpenUntilEnd(text: seq<byte>) {
    var all := text + [STAR, SLASH];
    forall i :: 0 <= i < |text| ==> !(all[i] == STAR && all[i + 1] == SLASH)
  }

  ghost predicate GapOk(g: Gap, strategy: Strategy) {
    match g
    case Blank(b) => Space(b)
    case Line(text) => strategy == Comments && NEWLINE !in text
    case Block(text) => strategy == Comments && OpenUntilEnd(text)
  }

  ghost function GapsText(gaps: seq<Gap>): seq<byte> {
    if gaps == [] then [] else GapText(gaps[0]) + GapsText(gaps[1..])
  }

  ghost predicate GapsOk(gaps: seq<Gap>, strategy: Strategy) {
    forall i :: 0 <= i < |gaps| ==> GapOk(gaps[i], strategy)
  }

  ghost predicate IsGaps(t: seq<byte>, gaps: seq<Gap>, strategy: Strategy) {
    GapsOk(gaps, strategy) && t == GapsText(gaps)
  }

  /** White space, with comments if they are allowed. */
  ghost predicate WsOk(t: seq<byte>, strategy: Strategy) {
    exists gaps :: IsGaps(t, gaps, strategy)
  }

  ghost predicate EndsInLine(t: seq<byte>, ws: seq<byte>, text: seq<byte>) {
    WsOk(ws, Comments) && NEWLINE !in text && t == ws + ([SLASH, SLASH] + text)
  }

  /** What may stand at the end of a text: there the last comment need not end its line. */
  ghost predicate TrailingOk(t: seq<byte>, strategy: Strategy) {
    WsOk(t, strategy) || (strategy == Comments && exists ws, text :: EndsInLine(t, ws, text))
  }

  /** Neither white space nor the start of a comment. */
  predicate Clear(t: seq<byte>, strategy: Strategy) {
    !Space(Peek(t)) && (strategy == Comments ==> Peek(t) != SLASH)
  }

  predicate Starts(t: seq<byte>, strategy: Strategy) { t != [] && Clear(t, strategy) }

  // ---------------------------------------------------------------- garbage is skipped

  lemma NoGarbage(strategy: Strategy)
    ensures WsOk([], strategy)
  {
    assert IsGaps([], [], strategy);
  }

  lemma {:induction false} LineEnds(text: seq<byte>, t: seq<byte>)
    requires NEWLINE !in text && (t == [] || t[0] == NEWLINE)
    ensures ToNewline(text + t) == t
  {
    if text == [] {
      assert text + t == t;
    } else {
      assert (text + t)[1..] == text[1..] + t && (text + t)[0] == text[0];
      LineEnds(text[1..], t);
    }
  }

  lemma {:induction false} BlockEnds(text: seq<byte>, t: seq<byte>)
    requires OpenUntilEnd(text)
    ensures ToClose(text + ([STAR, SLASH] + t)) == Done(true, t)
  {
    var all := text + ([STAR, SLASH] + t);
    if text == [] {
      assert all == [STAR, SLASH] + t && all[2..] == t;
    } else {
      assert all[1..] == text[1..] + ([STAR, SLASH] + t);
      assert all[0] == (text + [STAR, SLASH])[0] && all[1] == (text + [STAR, SLASH])[1];
      forall i | 0 <= i < |text| - 1
        ensures !((text[1..] + [STAR, SLASH])[i] == STAR && (text[1..] + [STAR, SLASH])[i + 1] == SLASH)
      {
        assert (text[1..] + [STAR, SLASH])[i] == (text + [STAR, SLASH])[i + 1];
        assert (text[1..] + [STAR, SLASH])[i + 1] == (text + [STAR, SLASH])[i + 2];
      }
      BlockEnds(text[1..], t);
    }
  }

  lemma SpaceSkipped(b: byte, t: seq<byte>, strategy: Strategy)
    requires Space(b)
    ensures SkipGarbage([b] + t, strategy) == SkipGarbage(t, strategy)
  {
    hide SkipComment;
    assert ([b] + t)[1..] == t;
  }

  lemma LineSkipped(text: seq<byte>, t: seq<byte>)
    requires NEWLINE !in text && (t == [] || t[0] == NEWLINE)
    ensures SkipGarbage([SLASH, SLASH] + (text + t), Comments) == SkipGarbage(t, Comments)
  {
    hide ToNewline, ToClose;
    var all := [SLASH, SLASH] + (text + t);
    LineEnds(text, t);
    assert all[2..] == text + t;
    assert SkipSpace(all) == all;
    assert SkipComment(all) == Done(true, t);
  }

  lemma BlockSkipped(text: seq<byte>, t: seq<byte>)
    requires OpenUntilEnd(text)
    ensures SkipGarbage([SLASH, STAR] + (text + ([STAR, SLASH] + t)), Comments) == SkipGarbage(t, Comments)
  {
    hide ToNewline, ToClose, OpenUntilEnd;
    var all := [SLASH, STAR] + (text + ([STAR, SLASH] + t));
    BlockEnds(text, t);
    assert all[2..] == text + ([STAR, SLASH] + t);
    assert SkipSpace(all) == all;
    assert SkipComment(all) == Done(true, t);
  }

  lemma GapSkipped(g: Gap, t: seq<byte>, strategy: Strategy)
    requires GapOk(g, strategy)
    ensures SkipGarbage(GapText(g) + t, strategy) == SkipGarbage(t, strategy)
  {
    hide SkipGarbage, OpenUntilEnd;
    match g
    case Blank(b) => SpaceSkipped(b, t, strategy);
    case Line(text) =>
      assert GapText(g) + t == [SLASH, SLASH] + (text + ([NEWLINE] + t));
      LineSkipped(text, [NEWLINE] + t);
      SpaceSkipped(NEWLINE, t, strategy);
    case Block(text) =>
      assert GapText(g) + t == [SLASH, STAR] + (text + ([STAR, SLASH] + t));
      BlockSkipped(text, t);
  }

  lemma {:induction false} GapsSkipped(gaps: seq<Gap>, t: seq<byte>, strategy: Strategy)
    requires GapsOk(gaps, strategy)
    ensures SkipGarbage(GapsText(gaps) + t, strategy) == SkipGarbage(t, strategy)
  {
    hide SkipGarbage, GapText, GapOk;
    if gaps == [] {
      assert GapsText(gaps) + t == t;
    } else {
      var rest := GapsText(gaps[1..]) + t;
      assert GapsText(gaps) + t == GapText(gaps[0]) + rest;
      GapSkipped(gaps[0], rest, strategy);
      GapsSkipped(gaps[1..], t, strategy);
    }
  }

  lemma ClearStays(t: seq<byte>, strategy: Strategy)
    requires Clear(t, strategy)
    ensures SkipGarbage(t, strategy) == Done((), t)
  {}

  lemma SkipWs(ws: seq<byte>, t: seq<byte>, strategy: Strategy)
    requires WsOk(ws, strategy) && Clear(t, strategy)
    ensures SkipGarbage(ws + t, strategy) == Done((), t)
  {
    hide SkipGarbage, GapsOk, GapsText;
    var gaps :| IsGaps(ws, gaps, strategy);
    GapsSkipped(gaps, t, strategy);
    ClearStays(t, strategy);
  }

  lemma SkipTrailing(t: seq<byte>, strategy: Strategy)
    requires TrailingOk(t, strategy)
    ensures SkipGarbage(t, strategy) == Done((), [])
  {
    hide SkipGarbage, GapsOk, GapsText;
    if WsOk(t, strategy) {
      assert t + [] == t;
      SkipWs(t, [], strategy);
    } else {
      var ws, text :| EndsInLine(t, ws, text);
      var gaps :| IsGaps(ws, gaps, Comments);
      GapsSkipped(gaps, [SLASH, SLASH] + text, Comments);
      assert text + [] == text;
      LineSkipped(text, []);
      ClearStays([], Comments);
    }
  }

  /** Garbage starts with white space or a comment. */
  lemma WsHead(ws: seq<byte>, strategy: Strategy)
    requires WsOk(ws, strategy) && ws != []
    ensures Space(ws[0]) || (strategy == Comments && ws[0] == SLASH)
  {
    hide OpenUntilEnd;
    var gaps :| IsGaps(ws, gaps, strategy);
    assert GapText(gaps[0])[0] == ws[0];
  }

  lemma TrailingHead(t: seq<byte>, strategy: Strategy)
    requires TrailingOk(t, strategy) && t != []
    ensures Space(t[0]) || t[0] == SLASH
  {
    hide WsOk;
    if WsOk(t, strategy) {
      WsHead(t, strategy);
    } else {
      var ws, text :| EndsInLine(t, ws, text);
      if ws != [] { WsHead(ws, strategy); }
    }
  }

  // ---------------------------------------------------------------- what is skipped is garbage

  lemma WsCons(g: Gap, ws: seq<byte>, strategy: Strategy)
    requires GapOk(g, strategy) && WsOk(ws, strategy)
    ensures WsOk(GapText(g) + ws, strategy)
  {
    hide GapText, GapOk;
    var gaps :| IsGaps(ws, gaps, strategy);
    assert ([g] + gaps)[1..] == gaps;
    assert IsGaps(GapText(g) + ws, [g] + gaps, strategy);
  }

  lemma {:induction false} SplitLine(t: seq<byte>) returns (text: seq<byte>)
    ensures NEWLINE !in text && t == text + ToNewline(t)
  {
    if t == [] || t[0] == NEWLINE {
      text := [];
    } else {
      var more := SplitLine(t[1..]);
      text := [t[0]] + more;
    }
  }

  lemma {:induction false} SplitBlock(t: seq<byte>) returns (text: seq<byte>)
    requires ToClose(t).Done?
    ensures OpenUntilEnd(text) && t == text + ([STAR, SLASH] + ToClose(t).rest)
  {
    if t[0] == STAR && t[1] == SLASH {
      text := [];
      assert t == [STAR, SLASH] + t[2..];
    } else {
      var more := SplitBlock(t[1..]);
      text := [t[0]] + more;
      var all, tail := text + [STAR, SLASH], more + [STAR, SLASH];
      assert t == [t[0]] + t[1..];
      forall i | 0 <= i < |text| ensures !(all[i] == STAR && all[i + 1] == SLASH) {
        if i > 0 {
          assert all[i] == tail[i - 1] && all[i + 1] == tail[i];
        } else {
          assert all[1] == tail[0] == t[1];
        }
      }
    }
  }

  /** Garbage in front of something more. */
  ghost predicate Splits(t: seq<byte>, ws: seq<byte>, rest: seq<byte>, strategy: Strategy) {
    if rest != [] then WsOk(ws, strategy) && t == ws + rest else TrailingOk(t, strategy) && ws == t
  }

  lemma SplitsNext(g: Gap, t: seq<byte>, ws: seq<byte>, rest: seq<byte>, strategy: Strategy)
    requires GapOk(g, strategy) && Splits(t, ws, rest, strategy)
    ensures Splits(GapText(g) + t, GapText(g) + ws, rest, strategy)
  {
    hide GapText, GapOk, WsOk;
    if rest != [] {
      WsCons(g, ws, strategy);
      assert GapText(g) + t == GapText(g) + ws + rest;
    } else if WsOk(t, strategy) {
      WsCons(g, t, strategy);
    } else {
      var before, text :| EndsInLine(t, before, text);
      WsCons(g, before, strategy);
      assert EndsInLine(GapText(g) + t, GapText(g) + before, text);
    }
  }

  /** What was skipped is garbage, and what follows it is clear. */
  lemma {:induction false} SplitGarbage(t: seq<byte>, strategy: Strategy) returns (ws: seq<byte>)
    requires SkipGarbage(t, strategy).Done?
    ensures Splits(t, ws, SkipGarbage(t, strategy).rest, strategy) && Clear(SkipGarbage(t, strategy).rest, strategy)
    decreases |t|
  {
    hide SkipGarbage, Splits, GapOk;
    if Space(Peek(t)) {
      assert t == [t[0]] + t[1..];
      SpaceSkipped(t[0], t[1..], strategy);
      var more := SplitGarbage(t[1..], strategy);
      BlankOk(t[0], strategy);
      SplitsNext(Blank(t[0]), t[1..], more, SkipGarbage(t, strategy).rest, strategy);
      ws := GapText(Blank(t[0])) + more;
    } else if strategy == Comments && Peek(t) == SLASH {
      ws := SplitComment(t);
    } else {
      ClearStays(t, strategy);
      ws := [];
      NothingSkipped(t, strategy);
    }
  }

  lemma BlankOk(b: byte, strategy: Strategy)
    requires Space(b)
    ensures GapOk(Blank(b), strategy)
  {}

  lemma NothingSkipped(t: seq<byte>, strategy: Strategy)
    ensures Splits(t, [], t, strategy)
  {
    NoGarbage(strategy);
    assert [] + t == t;
  }

  lemma CommentStarts(t: seq<byte>)
    requires Peek(t) == SLASH && SkipGarbage(t, Comments).Done?
    ensures |t| >= 2 && t == [SLASH, t[1]] + t[2..] && (t[1] == SLASH || (t[1] == STAR && ToClose(t[2..]).Done?))
  {
    hide SkipGarbage, ToClose, SkipComment;
    CommentFound(t);
    CommentForm(t);
    TwoFirst(t);
  }

  lemma CommentForm(t: seq<byte>)
    requires Peek(t) == SLASH && SkipComment(t).Done?
    ensures |t| >= 2 && (t[1] == SLASH || (t[1] == STAR && ToClose(t[2..]).Done?))
  {
    hide SkipGarbage, ToNewline, ToClose, SkipSpace;
  }

  lemma TwoFirst(t: seq<byte>)
    requires |t| >= 2
    ensures t == [t[0], t[1]] + t[2..]
  {}

  lemma CommentFound(t: seq<byte>)
    requires Peek(t) == SLASH && SkipGarbage(t, Comments).Done?
    ensures SkipComment(t).Done?
  {
    hide SkipComment;
    assert SkipSpace(t) == t;
  }

  lemma {:induction false} SplitComment(t: seq<byte>) returns (ws: seq<byte>)
    requires Peek(t) == SLASH && SkipGarbage(t, Comments).Done?
    ensures Splits(t, ws, SkipGarbage(t, Comments).rest, Comments) && Clear(SkipGarbage(t, Comments).rest, Comments)
    decreases |t|, 1
  {
    hide SkipGarbage, ToNewline, ToClose, Splits;
    CommentStarts(t);
    if t[1] == SLASH {
      ws := SplitLineComment(t);
    } else {
      ws := SplitBlockComment(t);
    }
  }

  lemma {:induction false} SplitLineComment(t: seq<byte>) returns (ws: seq<byte>)
    requires |t| >= 2 && t == [SLASH, SLASH] + t[2..] && SkipGarbage(t, Comments).Done?
    ensures Splits(t, ws, SkipGarbage(t, Comments).rest, Comments) && Clear(SkipGarbage(t, Comments).rest, Comments)
    decreases |t|, 0
  {
    hide SkipGarbage, ToNewline, Splits;
    var text := SplitLine(t[2..]);
    var u := ToNewline(t[2..]);
    assert t == [SLASH, SLASH] + (text + u);
    LineSkipped(text, u);
    if u == [] {
      ws := t;
      EndLine(t, text);
    } else {
      assert u == [NEWLINE] + u[1..];
      SpaceSkipped(NEWLINE, u[1..], Comments);
      var more := SplitGarbage(u[1..], Comments);
      SplitsNext(Line(text), u[1..], more, SkipGarbage(t, Comments).rest, Comments);
      assert t == GapText(Line(text)) + u[1..];
      ws := GapText(Line(text)) + more;
    }
  }

  lemma {:induction false} SplitBlockComment(t: seq<byte>) returns (ws: seq<byte>)
    requires |t| >= 2 && t == [SLASH, STAR] + t[2..] && ToClose(t[2..]).Done? && SkipGarbage(t, Comments).Done?
    ensures Splits(t, ws, SkipGarbage(t, Comments).rest, Comments) && Clear(SkipGarbage(t, Comments).rest, Comments)
    decreases |t|, 0
  {
    hide SkipGarbage, ToClose, Splits, OpenUntilEnd;
    var text := SplitBlock(t[2..]);
    var u := ToClose(t[2..]).rest;
    assert t == [SLASH, STAR] + (text + ([STAR, SLASH] + u));
    BlockSkipped(text, u);
    var more := SplitGarbage(u, Comments);
    SplitsNext(Block(text), u, more, SkipGarbage(t, Comments).rest, Comments);
    assert t == GapText(Block(text)) + u;
    ws := GapText(Block(text)) + more;
  }

  lemma EndLine(t: seq<byte>, text: seq<byte>)
    requires NEWLINE !in text && t == [SLASH, SLASH] + (text + [])
    ensures Splits(t, t, [], Comments) && SkipGarbage(t, Comments) == Done((), [])
  {
    NoGarbage(Comments);
    assert text + [] == text && t == [] + ([SLASH, SLASH] + text);
    assert EndsInLine(t, [], text);
    LineSkipped(text, []);
    ClearStays([], Comments);
  }
}
