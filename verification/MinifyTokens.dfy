/** What minifying keeps of a text, token by token: string literals and everything else that is neither blank nor
    comment nor a lone slash. */
module MinifyTokens {
  import opened Bytes
  import opened Minify

  datatype Token =
    | Gap(b: byte)                    // a blank
    | LineComment(body: seq<byte>)
    | BlockComment(body: seq<byte>)
    | LoneSlash
    | Literal(body: seq<byte>)
    | Mark(b: byte)                   // any other byte

  /** What a text may break off in. */
  datatype Ending = Clean | OpenLine(body: seq<byte>) | OpenBlock(body: seq<byte>) | OpenLiteral(body: seq<byte>)

  /** No star with a slash behind it. */
  predicate NoCloser(body: seq<byte>) {
    forall i :: 0 <= i < |body| - 1 ==> !(body[i] == 42 && body[i + 1] == 47)
  }

  /** Every quote has a backslash in front of it. */
  predicate QuotesAreEscaped(body: seq<byte>) {
    forall i :: 0 <= i < |body| && body[i] == 34 ==> i > 0 && body[i - 1] == 92
  }

  predicate TokenOk(t: Token) {
    match t
    case Gap(b) => b == 32 || b == 9 || b == 10 || b == 13
    case LineComment(body) => 10 !in body
    case BlockComment(body) => NoCloser(body)
    case LoneSlash => true
    case Literal(body) => QuotesAreEscaped(body) && (body == [] || body[|body| - 1] != 92)
    case Mark(b) => b != 32 && b != 9 && b != 10 && b != 13 && b != 34 && b != 47
  }

  predicate EndingOk(e: Ending) {
    match e
    case Clean => true
    case OpenLine(body) => 10 !in body
    case OpenBlock(body) => NoCloser(body)
    case OpenLiteral(body) => QuotesAreEscaped(body)
  }

  function TokenText(t: Token): (s: seq<byte>)
    ensures |s| > 0
  {
    match t
    case Gap(b) => [b]
    case LineComment(body) => [47, 47] + body + [10]
    case BlockComment(body) => [47, 42] + body + [42, 47]
    case LoneSlash => [47]
    case Literal(body) => [34] + body + [34]
    case Mark(b) => [b]
  }

  function EndingText(e: Ending): seq<byte> {
    match e
    case Clean => []
    case OpenLine(body) => [47, 47] + body
    case OpenBlock(body) => [47, 42] + body
    case OpenLiteral(body) => [34] + body
  }

  function Text(ts: seq<Token>, e: Ending): seq<byte> {
    if ts == [] then EndingText(e) else TokenText(ts[0]) + Text(ts[1..], e)
  }

  predicate NoComment(s: seq<byte>) {
    s == [] || (s[0] != 47 && s[0] != 42)
  }

  /** A lone slash does not begin a comment. */
  predicate TokensOk(ts: seq<Token>, e: Ending) {
    if ts == [] then EndingOk(e)
    else TokenOk(ts[0]) && (ts[0] == LoneSlash ==> NoComment(Text(ts[1..], e))) && TokensOk(ts[1..], e)
  }

  /** What is kept: the literals and the marks, and a literal that is broken off. */
  function Kept(ts: seq<Token>, e: Ending): seq<byte> {
    if ts == [] then (if e.OpenLiteral? then EndingText(e) else [])
    else (if ts[0].Literal? || ts[0].Mark? then TokenText(ts[0]) else []) + Kept(ts[1..], e)
  }

  lemma {:induction false} LineIsSkipped(body: seq<byte>, rest: seq<byte>)
    requires 10 !in body
    ensures SkipLine(body + [10] + rest) == rest && SkipLine(body) == []
    decreases |body|
  {
    var s := body + [10] + rest;
    if body == [] {
      assert s[1..] == rest;
    } else {
      assert s[1..] == body[1..] + [10] + rest;
      LineIsSkipped(body[1..], rest);
    }
  }

  lemma {:induction false} BlockIsSkipped(body: seq<byte>, rest: seq<byte>)
    requires NoCloser(body)
    ensures SkipBlock(body + [42, 47] + rest) == rest && SkipBlock(body) == []
    decreases |body|
  {
    var s := body + [42, 47] + rest;
    if body == [] {
      assert s[2..] == rest;
    } else {
      assert s[1..] == body[1..] + [42, 47] + rest;
      BlockIsSkipped(body[1..], rest);
    }
  }

  /** One byte of a literal, or an escaped quote. */
  lemma InsideGoesOn(unit: seq<byte>, rest: seq<byte>)
    requires unit == [92, 34] || (|unit| == 1 && unit[0] != 34 && (unit[0] == 92 ==> rest == [] || rest[0] != 34))
    ensures Inside(unit + rest) == unit + Inside(rest)
  {
    hide Outside;
    assert (unit + rest)[|unit|..] == rest;
  }

  lemma {:induction false} LiteralIsKept(body: seq<byte>, rest: seq<byte>)
    requires QuotesAreEscaped(body) && (body == [] || body[|body| - 1] != 92)
    ensures Inside(body + ([34] + rest)) == body + ([34] + Outside(rest))
    decreases |body|
  {
    hide Outside, Inside;
    var tail := [34] + rest;
    if body == [] {
      LiteralEnds(rest);
      Nothing(tail);
      Nothing([34] + Outside(rest));
    } else {
      var n := if body[0] == 92 && |body| > 1 && body[1] == 34 then 2 else 1;
      TakeDrop(body, n);
      Associate(body[..n], body[n..], tail);
      Associate(body[..n], body[n..], [34] + Outside(rest));
      InsideGoesOn(body[..n], body[n..] + tail);
      LiteralIsKept(body[n..], rest);
    }
  }

  lemma LiteralEnds(rest: seq<byte>)
    ensures Inside([34] + rest) == [34] + Outside(rest)
  {
    assert ([34] + rest)[1..] == rest;
  }

  lemma {:induction false} OpenLiteralIsKept(body: seq<byte>)
    requires QuotesAreEscaped(body)
    ensures Inside(body) == body
    decreases |body|
  {
    hide Outside;
    if body == [] {
    } else if body[0] == 92 && |body| > 1 && body[1] == 34 {
      assert body == [92, 34] + body[2..];
      OpenLiteralIsKept(body[2..]);
    } else {
      Cons(body);
      OpenLiteralIsKept(body[1..]);
    }
  }

  lemma CommentIsMinified(t: Token, rest: seq<byte>)
    requires TokenOk(t) && (t.LineComment? || t.BlockComment?)
    ensures Outside(TokenText(t) + rest) == Outside(rest)
  {
    hide SkipLine, SkipBlock, Inside;
    var s := TokenText(t) + rest;
    if t.LineComment? {
      assert s[2..] == t.body + [10] + rest;
      LineIsSkipped(t.body, rest);
    } else {
      assert s[2..] == t.body + [42, 47] + rest;
      BlockIsSkipped(t.body, rest);
    }
  }

  lemma LiteralIsMinified(body: seq<byte>, rest: seq<byte>)
    requires TokenOk(Literal(body))
    ensures Outside([34] + (body + ([34] + rest))) == [34] + (body + ([34] + Outside(rest)))
  {
    hide Inside, SkipLine, SkipBlock;
    assert ([34] + (body + ([34] + rest)))[1..] == body + ([34] + rest);
    LiteralIsKept(body, rest);
  }

  lemma QuotesAround(body: seq<byte>, rest: seq<byte>)
    ensures [34] + body + [34] + rest == [34] + (body + ([34] + rest))
  {
  }

  lemma ByteIsMinified(b: byte, rest: seq<byte>)
    requires b != 34 && (b == 47 ==> NoComment(rest))
    ensures Outside([b] + rest)
            == (if b == 32 || b == 9 || b == 10 || b == 13 || b == 47 then [] else [b]) + Outside(rest)
  {
    hide Inside, SkipLine, SkipBlock;
    assert ([b] + rest)[1..] == rest;
    Nothing(Outside(rest));
  }

  lemma TokenIsMinified(t: Token, rest: seq<byte>)
    requires TokenOk(t) && (t == LoneSlash ==> NoComment(rest))
    ensures Outside(TokenText(t) + rest) == (if t.Literal? || t.Mark? then TokenText(t) else []) + Outside(rest)
  {
    hide Outside, NoComment, NoCloser, QuotesAreEscaped;
    match t
    case Literal(body) =>
      LiteralIsMinified(body, rest);
      QuotesAround(body, rest);
      QuotesAround(body, Outside(rest));
    case LineComment(_) =>
      CommentIsMinified(t, rest);
      Nothing(Outside(rest));
    case BlockComment(_) =>
      CommentIsMinified(t, rest);
      Nothing(Outside(rest));
    case LoneSlash => ByteIsMinified(47, rest);
    case Gap(b) => ByteIsMinified(b, rest);
    case Mark(b) => ByteIsMinified(b, rest);
  }

  lemma EndingIsMinified(e: Ending)
    requires EndingOk(e)
    ensures Outside(EndingText(e)) == if e.OpenLiteral? then EndingText(e) else []
  {
    var s := EndingText(e);
    match e
    case Clean =>
    case OpenLine(body) =>
      assert s[2..] == body;
      LineIsSkipped(body, []);
    case OpenBlock(body) =>
      assert s[2..] == body;
      BlockIsSkipped(body, []);
    case OpenLiteral(body) =>
      assert s[1..] == body;
      OpenLiteralIsKept(body);
  }

  /** Minifying keeps the literals and the marks, in order, and nothing else. */
  lemma {:induction false} MinifyKeepsTokens(ts: seq<Token>, e: Ending)
    requires TokensOk(ts, e)
    ensures Outside(Text(ts, e)) == Kept(ts, e)
    decreases |ts|
  {
    hide Outside, TokenText, TokenOk;
    if ts == [] {
      EndingIsMinified(e);
    } else {
      TokenIsMinified(ts[0], Text(ts[1..], e));
      MinifyKeepsTokens(ts[1..], e);
    }
  }

  // -------- every text consists of tokens

  lemma {:induction false} SplitLine(s: seq<byte>) returns (body: seq<byte>, ended: bool, rest: seq<byte>)
    ensures 10 !in body && s == if ended then body + [10] + rest else body
    ensures |rest| <= |s|
    decreases |s|
  {
    if s == [] || s[0] == 10 {
      body, ended, rest := [], s != [], if s == [] then [] else s[1..];
    } else {
      body, ended, rest := SplitLine(s[1..]);
      body := [s[0]] + body;
      Cons(s);
    }
  }

  lemma {:induction false} SplitBlock(s: seq<byte>) returns (body: seq<byte>, ended: bool, rest: seq<byte>)
    ensures NoCloser(body) && s == if ended then body + [42, 47] + rest else body
    ensures |rest| <= |s|
    decreases |s|
  {
    if s == [] {
      body, ended, rest := [], false, [];
    } else if s[0] == 42 && |s| > 1 && s[1] == 47 {
      body, ended, rest := [], true, s[2..];
    } else {
      Cons(s);
      body, ended, rest := SplitBlock(s[1..]);
      body := [s[0]] + body;
    }
  }

  lemma {:induction false} SplitLiteral(s: seq<byte>) returns (body: seq<byte>, ended: bool, rest: seq<byte>)
    ensures QuotesAreEscaped(body) && s == if ended then body + [34] + rest else body
    ensures ended ==> body == [] || body[|body| - 1] != 92
    ensures |rest| <= |s|
    decreases |s|
  {
    if s == [] || s[0] == 34 {
      body, ended, rest := [], s != [], if s == [] then [] else s[1..];
    } else if s[0] == 92 && |s| > 1 && s[1] == 34 {
      assert s == [92, 34] + s[2..];
      body, ended, rest := SplitLiteral(s[2..]);
      body := [92, 34] + body;
    } else {
      Cons(s);
      body, ended, rest := SplitLiteral(s[1..]);
      body := [s[0]] + body;
    }
  }

  lemma OneMore(t: Token, ts: seq<Token>, e: Ending)
    requires TokenOk(t) && TokensOk(ts, e) && (t == LoneSlash ==> NoComment(Text(ts, e)))
    ensures TokensOk([t] + ts, e) && Text([t] + ts, e) == TokenText(t) + Text(ts, e)
  {
    hide TokenOk, TokenText;
    assert ([t] + ts)[1..] == ts;
  }

  /** What begins as a comment. */
  lemma SplitComment(s: seq<byte>) returns (first: Option<Token>, e: Ending, rest: seq<byte>)
    requires |s| > 1 && s[0] == 47 && (s[1] == 47 || s[1] == 42)
    ensures first == None ==> EndingOk(e) && EndingText(e) == s
    ensures first.Some? ==> TokenOk(first.value) && TokenText(first.value) + rest == s && |rest| < |s|
    ensures first != Some(LoneSlash)
  {
    hide NoCloser;
    TakeDrop(s, 2);
    var body, ended;
    if s[1] == 47 {
      assert s[..2] == [47, 47];
      body, ended, rest := SplitLine(s[2..]);
      first, e := if ended then Some(LineComment(body)) else None, OpenLine(body);
      Between([47, 47], body, [10], rest);
    } else {
      assert s[..2] == [47, 42];
      body, ended, rest := SplitBlock(s[2..]);
      first, e := if ended then Some(BlockComment(body)) else None, OpenBlock(body);
      Between([47, 42], body, [42, 47], rest);
    }
  }

  lemma Between(left: seq<byte>, body: seq<byte>, right: seq<byte>, rest: seq<byte>)
    ensures left + (body + right + rest) == left + body + right + rest
  {
  }

  /** The first token of a text, or the ending it consists of. */
  lemma SplitToken(s: seq<byte>) returns (first: Option<Token>, e: Ending, rest: seq<byte>)
    ensures first == None ==> EndingOk(e) && EndingText(e) == s
    ensures first.Some? ==> TokenOk(first.value) && TokenText(first.value) + rest == s && |rest| < |s|
    ensures first == Some(LoneSlash) ==> NoComment(rest)
  {
    hide NoCloser, QuotesAreEscaped;
    first, e, rest := None, Clean, [];
    if |s| > 1 && s[0] == 47 && (s[1] == 47 || s[1] == 42) {
      first, e, rest := SplitComment(s);
    } else if s != [] && s[0] == 34 {
      var body, ended;
      Cons(s);
      body, ended, rest := SplitLiteral(s[1..]);
      first, e := if ended then Some(Literal(body)) else None, OpenLiteral(body);
      Between([34], body, [34], rest);
    } else if s != [] {
      Cons(s);
      var b := s[0];
      rest := s[1..];
      first := Some(if b == 47 then LoneSlash else if b == 32 || b == 9 || b == 10 || b == 13 then Gap(b) else Mark(b));
    }
  }

  /** There is no other text: what minifying does is said for every input. */
  lemma {:induction false} EveryTextHasTokens(s: seq<byte>) returns (ts: seq<Token>, e: Ending)
    ensures TokensOk(ts, e) && Text(ts, e) == s && Outside(s) == Kept(ts, e)
    decreases |s|
  {
    hide Outside, TokenOk, TokenText, NoComment;
    var first, ending, rest := SplitToken(s);
    if first == None {
      ts, e := [], ending;
    } else {
      var more;
      more, e := EveryTextHasTokens(rest);
      OneMore(first.value, more, e);
      ts := [first.value] + more;
    }
    MinifyKeepsTokens(ts, e);
  }
}
