/** When minifying a formatted print gives the unformatted print. */
module MinifyPrint {
  import opened Bytes
  import opened JsonNumber
  import opened JsonString
  import opened Json
  import opened Minify

  /** The printed string ends in a backslash before its quote, which the minifier takes for an escape. */
  predicate EndsOpen(t: seq<byte>) {
    t != [] && t[|t| - 1] == BACKSLASH
  }

  /** No string and no key of the tree ends in a backslash. */
  predicate Clean(v: Value)
    decreases v
  {
    match v
    case String(t) => !EndsOpen(t)
    case Array(items) => ItemsClean(items)
    case Object(members) => MembersClean(members)
    case _ => true
  }

  predicate ItemsClean(items: seq<Value>)
    decreases items
  {
    items == [] || (Clean(items[0]) && ItemsClean(items[1..]))
  }

  predicate MembersClean(members: seq<Member>)
    decreases members
  {
    members == [] || (!EndsOpen(members[0].key) && Clean(members[0].value) && MembersClean(members[1..]))
  }

  /** A backslash ends at most the very last string, with nothing but closing brackets behind it. */
  predicate CleanUpToTheEnd(v: Value)
    decreases v
  {
    match v
    case String(_) => true
    case Array(items) => ItemsCleanUpToTheEnd(items)
    case _ => Clean(v)
  }

  predicate ItemsCleanUpToTheEnd(items: seq<Value>)
    decreases items
  {
    items == []
    || (if |items| == 1 then CleanUpToTheEnd(items[0]) else Clean(items[0]) && ItemsCleanUpToTheEnd(items[1..]))
  }

  // -------- texts that differ

  ghost predicate Differs(x: seq<byte>, y: seq<byte>) {
    exists k :: 0 <= k < |x| && k < |y| && x[k] != y[k]
  }

  lemma DiffersAt(p: seq<byte>, a: byte, b: byte, x: seq<byte>, y: seq<byte>)
    requires a != b
    ensures Differs(p + ([a] + x), p + ([b] + y))
  {
    var l, r := p + ([a] + x), p + ([b] + y);
    assert l[|p|] == a && r[|p|] == b;
  }

  lemma DiffersBehind(p: seq<byte>, x: seq<byte>, y: seq<byte>)
    requires Differs(x, y)
    ensures Differs(p + x, p + y)
  {
    var k :| 0 <= k < |x| && k < |y| && x[k] != y[k];
    assert (p + x)[|p| + k] == x[k] && (p + y)[|p| + k] == y[k];
  }

  lemma DiffersBefore(x: seq<byte>, y: seq<byte>, more: seq<byte>)
    requires Differs(x, y)
    ensures Differs(x, y + more)
  {
    var k :| 0 <= k < |x| && k < |y| && x[k] != y[k];
    assert (y + more)[k] == y[k];
  }

  // -------- pieces of text

  /** Bytes that the minifier copies outside a string. */
  predicate Plain(t: seq<byte>) {
    forall i :: 0 <= i < |t| ==> !IsBlank(t[i]) && t[i] != SLASH && t[i] != QUOTE
  }

  lemma {:induction false} OutsidePlain(t: seq<byte>, rest: seq<byte>)
    requires Plain(t)
    ensures Outside(t + rest) == t + Outside(rest)
  {
    if t == [] {
      assert t + rest == rest;
    } else {
      assert (t + rest)[0] == t[0] && (t + rest)[1..] == t[1..] + rest;
      OutsidePlain(t[1..], rest);
      assert [t[0]] + (t[1..] + Outside(rest)) == t + Outside(rest);
    }
  }

  lemma OutsideByte(b: byte, rest: seq<byte>)
    ensures b != SLASH && b != QUOTE && !IsBlank(b) ==> Outside([b] + rest) == [b] + Outside(rest)
    ensures IsBlank(b) ==> Outside([b] + rest) == Outside(rest)
    ensures b == QUOTE ==> Outside([b] + rest) == [b] + Inside(rest)
  {
    assert ([b] + rest)[1..] == rest;
  }

  lemma InsideByte(b: byte, rest: seq<byte>)
    ensures b != BACKSLASH && b != QUOTE ==> Inside([b] + rest) == [b] + Inside(rest)
    ensures b == BACKSLASH && (rest == [] || rest[0] != QUOTE) ==> Inside([b] + rest) == [b] + Inside(rest)
    ensures b == BACKSLASH && rest != [] && rest[0] == QUOTE ==> Inside([b] + rest) == [b, QUOTE] + Inside(rest[1..])
    ensures b == QUOTE ==> Inside([b] + rest) == [b] + Outside(rest)
  {
    assert ([b] + rest)[1..] == rest;
    if rest != [] {
      assert ([b] + rest)[2..] == rest[1..];
    }
  }

  lemma {:induction false} OutsideTabs(n: nat, rest: seq<byte>)
    ensures Outside(Tabs(n) + rest) == Outside(rest)
  {
    if n == 0 {
      assert Tabs(n) + rest == rest;
    } else {
      assert Tabs(n) + rest == [TAB] + (Tabs(n - 1) + rest);
      OutsideByte(TAB, Tabs(n - 1) + rest);
      OutsideTabs(n - 1, rest);
    }
  }

  /** An escape sequence that does not end in a quote or a backslash. */
  lemma InsideOrdinary(b: byte, rest: seq<byte>)
    requires b != QUOTE && b != BACKSLASH
    ensures Inside(EscapeByte(b) + rest) == EscapeByte(b) + Inside(rest)
  {
    var e := EscapeByte(b);
    if |e| == 1 {
      InsideByte(e[0], rest);
    } else {
      assert e[0] == BACKSLASH;
      var tail := e[1..];
      assert e + rest == [BACKSLASH] + (tail + rest);
      InsideByte(BACKSLASH, tail + rest);
      InsideLetters(tail, rest);
      assert [BACKSLASH] + (tail + Inside(rest)) == e + Inside(rest);
    }
  }

  lemma {:induction false} InsideLetters(t: seq<byte>, rest: seq<byte>)
    requires forall i :: 0 <= i < |t| ==> t[i] != QUOTE && t[i] != BACKSLASH
    ensures Inside(t + rest) == t + Inside(rest)
  {
    if t == [] {
      assert t + rest == rest;
    } else {
      assert t + rest == [t[0]] + (t[1..] + rest);
      InsideByte(t[0], t[1..] + rest);
      InsideLetters(t[1..], rest);
      assert [t[0]] + (t[1..] + Inside(rest)) == t + Inside(rest);
    }
  }

  /** One byte of a string: only behind a backslash does it matter what comes next. */
  lemma InsideEscape(b: byte, more: seq<byte>)
    requires more != []
    ensures b != BACKSLASH || more[0] != QUOTE ==> Inside(EscapeByte(b) + more) == EscapeByte(b) + Inside(more)
    ensures b == BACKSLASH && more[0] == QUOTE ==>
      Inside(EscapeByte(b) + more) == EscapeByte(b) + ([QUOTE] + Inside(more[1..]))
  {
    if b == QUOTE {
      TwoBytes(BACKSLASH, QUOTE, more);
      InsideByte(BACKSLASH, [QUOTE] + more);
      assert ([QUOTE] + more)[1..] == more;
    } else if b == BACKSLASH {
      InsideBackslash(more);
    } else {
      InsideOrdinary(b, more);
    }
  }

  lemma TwoBytes(a: byte, b: byte, x: seq<byte>)
    ensures [a, b] + x == [a] + ([b] + x)
  {
  }

  lemma InsideBackslash(more: seq<byte>)
    requires more != []
    ensures Inside([BACKSLASH, BACKSLASH] + more)
            == [BACKSLASH, BACKSLASH] + if more[0] == QUOTE then [QUOTE] + Inside(more[1..]) else Inside(more)
  {
    TwoBytes(BACKSLASH, BACKSLASH, more);
    InsideByte(BACKSLASH, [BACKSLASH] + more);
    InsideByte(BACKSLASH, more);
    TwoBytes(BACKSLASH, QUOTE, Inside(more[1..]));
    TwoBytes(BACKSLASH, BACKSLASH, if more[0] == QUOTE then [QUOTE] + Inside(more[1..]) else Inside(more));
  }

  lemma InsideOneByte(t: seq<byte>, rest: seq<byte>)
    requires |t| == 1
    ensures Inside(Escaped(t) + ([QUOTE] + rest))
            == Escaped(t) + ([QUOTE] + if EndsOpen(t) then Inside(rest) else Outside(rest))
  {
    var end := [QUOTE] + rest;
    assert t[1..] == [] && Escaped(t) == EscapeByte(t[0]) by {
      assert EscapeByte(t[0]) + [] == EscapeByte(t[0]);
    }
    InsideEscape(t[0], end);
    InsideByte(QUOTE, rest);
    assert end[1..] == rest && end[0] == QUOTE;
  }

  /** From behind the opening quote to behind the closing one. */
  lemma {:induction false} InsideString(t: seq<byte>, rest: seq<byte>)
    ensures Inside(Escaped(t) + ([QUOTE] + rest))
            == Escaped(t) + ([QUOTE] + if EndsOpen(t) then Inside(rest) else Outside(rest))
    decreases |t|
  {
    var end := [QUOTE] + rest;
    if t == [] {
      assert Escaped(t) + end == end && Escaped(t) + ([QUOTE] + Outside(rest)) == [QUOTE] + Outside(rest);
      InsideByte(QUOTE, rest);
    } else if |t| == 1 {
      InsideOneByte(t, rest);
    } else {
      var more := Escaped(t[1..]) + end;
      var after := [QUOTE] + if EndsOpen(t) then Inside(rest) else Outside(rest);
      assert t[1..][|t| - 2] == t[|t| - 1];
      Associate(EscapeByte(t[0]), Escaped(t[1..]), end);
      Associate(EscapeByte(t[0]), Escaped(t[1..]), after);
      StartOfMore(t[1..], rest);
      InsideEscape(t[0], more);
      InsideString(t[1..], rest);
    }
  }

  /** The text of a string starts with its quote only when the string is empty. */
  lemma StartOfMore(t: seq<byte>, rest: seq<byte>)
    ensures var more := Escaped(t) + ([QUOTE] + rest); more[0] == QUOTE <==> t == []
  {
    if t != [] {
      assert Escaped(t)[0] == EscapeByte(t[0])[0];
    }
  }

  /** A whole string, from outside on. */
  lemma OutsideString(t: seq<byte>, rest: seq<byte>)
    ensures Outside(Quoted(t) + rest) == Quoted(t) + if EndsOpen(t) then Inside(rest) else Outside(rest)
  {
    Bracketed([QUOTE], Escaped(t), [QUOTE], rest);
    Bracketed([QUOTE], Escaped(t), [QUOTE], if EndsOpen(t) then Inside(rest) else Outside(rest));
    OutsideByte(QUOTE, Escaped(t) + ([QUOTE] + rest));
    InsideString(t, rest);
  }

  /** The text of a value starts with a byte that is neither a blank nor a control byte. */
  lemma StartsSolid(v: Value, format: bool, depth: nat)
    ensures var t := Render(v, format, depth); t != [] && t[0] > 32
  {
  }

  lemma LeafIsPlain(v: Value, format: bool, depth: nat)
    requires v.Null? || v.False? || v.True? || v.Number?
    ensures Plain(Render(v, format, depth)) && Render(v, format, depth) == Render(v, false, depth)
  {
    if v.Number? {
      var t := Decimal(Saturate(v.number));
      assert forall i :: 0 <= i < |t| ==> IsNumberByte(t[i]);
    }
  }

  // -------- trees

  /** How minifying goes for a text `f` that should become `u`: it does, and the minifier is outside a string
      behind it; or it does, but the minifier still believes to be inside a string; or it does not. */
  ghost predicate Goes(clean: bool, tail: bool, f: seq<byte>, u: seq<byte>, rest: seq<byte>) {
    if clean then Outside(f + rest) == u + Outside(rest)
    else if tail then Outside(f + rest) == u + Inside(rest)
    else Differs(Outside(f + rest), u)
  }

  lemma {:induction false} ValueGoes(v: Value, depth: nat, rest: seq<byte>)
    ensures Goes(Clean(v), CleanUpToTheEnd(v), Render(v, true, depth), Render(v, false, depth), rest)
    decreases v, 1
  {
    match v
    case String(t) => OutsideString(t, rest);
    case Array(items) => ArrayGoes(items, depth, rest);
    case Object(members) => ObjectGoes(members, depth, rest);
    case _ =>
      LeafIsPlain(v, true, depth);
      OutsidePlain(Render(v, true, depth), rest);
  }

  lemma {:induction false} ArrayGoes(items: seq<Value>, depth: nat, rest: seq<byte>)
    ensures var v := Array(items);
            Goes(Clean(v), CleanUpToTheEnd(v), Render(v, true, depth), Render(v, false, depth), rest)
    decreases items, 2
  {
    var f, u, close := RenderItems(items, true, depth + 1), RenderItems(items, false, depth + 1), [RBRACKET] + rest;
    Bracketed([LBRACKET], f, [RBRACKET], rest);
    Bracketed([LBRACKET], u, [RBRACKET], Outside(rest));
    Bracketed([LBRACKET], u, [RBRACKET], Inside(rest));
    OutsideByte(LBRACKET, f + close);
    OutsideByte(RBRACKET, rest);
    InsideByte(RBRACKET, rest);
    ItemsGo(items, depth + 1, close);
    if !ItemsClean(items) && !ItemsCleanUpToTheEnd(items) {
      DiffersBefore(Outside(f + close), u, [RBRACKET]);
      DiffersBehind([LBRACKET], Outside(f + close), u + [RBRACKET]);
    }
  }

  lemma Bracketed(left: seq<byte>, t: seq<byte>, right: seq<byte>, rest: seq<byte>)
    ensures left + t + right + rest == left + (t + (right + rest)) && left + t + right == left + (t + right)
  {
  }

  lemma CleanIsCleanToTheEnd(items: seq<Value>)
    requires ItemsClean(items)
    ensures ItemsCleanUpToTheEnd(items)
  {
    if items != [] {
      CleanIsCleanToTheEnd(items[1..]);
      if |items| == 1 {
        CleanValueToTheEnd(items[0]);
      }
    }
  }

  lemma CleanValueToTheEnd(v: Value)
    requires Clean(v)
    ensures CleanUpToTheEnd(v)
    decreases v, 0
  {
    if v.Array? {
      CleanIsCleanToTheEnd(v.items);
    }
  }

  lemma OneItemText(items: seq<Value>, format: bool, depth: nat)
    requires |items| == 1
    ensures RenderItems(items, format, depth) == Render(items[0], format, depth)
  {
    var text := Render(items[0], format, depth);
    assert items[1..] == [] && RenderItems(items[1..], format, depth) == [];
    assert text + [] + [] == text;
  }

  lemma OneItemIsClean(items: seq<Value>)
    requires |items| == 1
    ensures ItemsClean(items) == Clean(items[0]) && ItemsCleanUpToTheEnd(items) == CleanUpToTheEnd(items[0])
  {
    assert items[1..] == [];
  }

  lemma ManyItemsText(items: seq<Value>, depth: nat, rest: seq<byte>)
    requires |items| > 1
    ensures RenderItems(items, true, depth) + rest
            == Render(items[0], true, depth) + ([COMMA] + ([SPACE] + (RenderItems(items[1..], true, depth) + rest)))
    ensures RenderItems(items, false, depth)
            == Render(items[0], false, depth) + ([COMMA] + RenderItems(items[1..], false, depth))
  {
  }

  lemma {:induction false} ItemsGo(items: seq<Value>, depth: nat, rest: seq<byte>)
    ensures Goes(ItemsClean(items), ItemsCleanUpToTheEnd(items), RenderItems(items, true, depth),
                 RenderItems(items, false, depth), rest)
    decreases items, 1
  {
    if items == [] {
      assert [] + rest == rest && [] + Outside(rest) == Outside(rest);
    } else if |items| == 1 {
      OneItemText(items, true, depth);
      OneItemText(items, false, depth);
      OneItemIsClean(items);
      ValueGoes(items[0], depth, rest);
    } else {
      var f, u := RenderItems(items[1..], true, depth), RenderItems(items[1..], false, depth);
      var u0 := Render(items[0], false, depth);
      ManyItemsText(items, depth, rest);
      ValueGoes(items[0], depth, [COMMA] + ([SPACE] + (f + rest)));
      OutsideByte(COMMA, [SPACE] + (f + rest));
      OutsideByte(SPACE, f + rest);
      InsideByte(COMMA, [SPACE] + (f + rest));
      InsideByte(SPACE, f + rest);
      ItemsGo(items[1..], depth, rest);
      JoinItems(items, u0, u, f, rest, depth);
    }
  }

  /** A text, a byte and two more texts. */
  lemma Parts(a: seq<byte>, b: byte, c: seq<byte>, d: seq<byte>)
    ensures a + ([b] + (c + d)) == a + ([b] + c) + d
    ensures a + [b] + c == a + ([b] + c)
  {
  }

  /** The first item and the others, put together. */
  lemma JoinItems(items: seq<Value>, u0: seq<byte>, u: seq<byte>, f: seq<byte>, rest: seq<byte>, depth: nat)
    requires |items| > 1 && u == RenderItems(items[1..], false, depth)
    requires var all := RenderItems(items, true, depth) + rest;
             if Clean(items[0]) then Outside(all) == u0 + ([COMMA] + Outside(f + rest))
             else if CleanUpToTheEnd(items[0]) then Outside(all) == u0 + ([COMMA] + ([SPACE] + Inside(f + rest)))
             else Differs(Outside(all), u0)
    requires Goes(ItemsClean(items[1..]), ItemsCleanUpToTheEnd(items[1..]), f, u, rest)
    requires RenderItems(items, false, depth) == u0 + ([COMMA] + u)
    ensures Goes(ItemsClean(items), ItemsCleanUpToTheEnd(items), RenderItems(items, true, depth),
                 RenderItems(items, false, depth), rest)
  {
    if Clean(items[0]) {
      Parts(u0, COMMA, u, Outside(rest));
      Parts(u0, COMMA, u, Inside(rest));
      if !ItemsClean(items[1..]) && !ItemsCleanUpToTheEnd(items[1..]) {
        DiffersBehind([COMMA], Outside(f + rest), u);
        DiffersBehind(u0, [COMMA] + Outside(f + rest), [COMMA] + u);
      }
    } else if CleanUpToTheEnd(items[0]) {
      StartsSolid(items[1], false, depth);
      assert u[0] == Render(items[1], false, depth)[0];
      SpaceDiffers(u0, Inside(f + rest), u);
    } else {
      DiffersBefore(Outside(RenderItems(items, true, depth) + rest), u0, [COMMA] + u);
    }
  }

  lemma SpaceDiffers(u0: seq<byte>, x: seq<byte>, u: seq<byte>)
    requires u != [] && u[0] > 32
    ensures Differs(u0 + ([COMMA] + ([SPACE] + x)), u0 + ([COMMA] + u))
  {
    DiffersAt([COMMA], SPACE, u[0], x, u[1..]);
    assert [u[0]] + u[1..] == u;
    DiffersBehind(u0, [COMMA] + ([SPACE] + x), [COMMA] + u);
  }

  lemma {:induction false} ObjectGoes(members: seq<Member>, depth: nat, rest: seq<byte>)
    ensures var v := Object(members);
            Goes(Clean(v), CleanUpToTheEnd(v), Render(v, true, depth), Render(v, false, depth), rest)
    decreases members, 2
  {
    var f := RenderMembers(members, true, depth + 1) + (Tabs(depth) + ([RBRACE] + rest));
    var u := RenderMembers(members, false, depth + 1) + [RBRACE];
    ObjectTexts(members, depth, rest);
    OutsideByte(LBRACE, [LF] + f);
    OutsideByte(LF, f);
    ClosingBrace(depth, rest);
    MembersGo(members, depth + 1, Tabs(depth) + ([RBRACE] + rest), rest);
    if MembersClean(members) {
      Associate([LBRACE], u, Outside(rest));
    } else {
      DiffersBehind([LBRACE], Outside(f), u);
    }
  }

  lemma ObjectTexts(members: seq<Member>, depth: nat, rest: seq<byte>)
    ensures Render(Object(members), true, depth) + rest
            == [LBRACE] + ([LF] + (RenderMembers(members, true, depth + 1) + (Tabs(depth) + ([RBRACE] + rest))))
    ensures Render(Object(members), false, depth) == [LBRACE] + (RenderMembers(members, false, depth + 1) + [RBRACE])
  {
    FiveParts([LBRACE], [LF], RenderMembers(members, true, depth + 1), Tabs(depth), [RBRACE], rest);
    NothingBetween([LBRACE], RenderMembers(members, false, depth + 1), [RBRACE]);
  }

  lemma FiveParts(a: seq<byte>, b: seq<byte>, c: seq<byte>, d: seq<byte>, e: seq<byte>, rest: seq<byte>)
    ensures a + b + c + d + e + rest == a + (b + (c + (d + (e + rest))))
  {
  }

  lemma NothingBetween(a: seq<byte>, b: seq<byte>, c: seq<byte>)
    ensures a + [] + b + [] + c == a + (b + c)
  {
  }

  /** What stands behind the members: nothing but the closing brace, for the minifier. */
  predicate Closes(close: seq<byte>, rest: seq<byte>) {
    Outside(close) == [RBRACE] + Outside(rest)
  }

  lemma ClosingBrace(depth: nat, rest: seq<byte>)
    ensures Closes(Tabs(depth) + ([RBRACE] + rest), rest)
  {
    OutsideTabs(depth, [RBRACE] + rest);
    OutsideByte(RBRACE, rest);
  }

  lemma {:induction false} MembersGo(members: seq<Member>, depth: nat, close: seq<byte>, rest: seq<byte>)
    requires Closes(close, rest)
    ensures var f, u := RenderMembers(members, true, depth) + close, RenderMembers(members, false, depth) + [RBRACE];
            if MembersClean(members) then Outside(f) == u + Outside(rest) else Differs(Outside(f), u)
    decreases members, 1
  {
    if members == [] {
      assert RenderMembers(members, true, depth) + close == close;
    } else {
      MembersGo(members[1..], depth, close, rest);
      MemberGoes(members[0], |members| == 1, depth, RenderMembers(members[1..], true, depth) + close,
                 RenderMembers(members[1..], false, depth) + [RBRACE]);
      JoinMembers(members, depth, close, rest);
    }
  }

  /** One member with everything behind it: the text the minifier sees and the text there should be. */
  function Formatted(m: Member, last: bool, depth: nat, more: seq<byte>): seq<byte> {
    RenderMember(m, last, true, depth) + more
  }

  function Unformatted(m: Member, last: bool, depth: nat, more: seq<byte>): seq<byte> {
    RenderMember(m, last, false, depth) + more
  }

  predicate MemberIsClean(m: Member) {
    !EndsOpen(m.key) && Clean(m.value)
  }

  /** A clean member disappears from the comparison; any other one makes the texts differ. */
  lemma {:induction false} MemberGoes(m: Member, last: bool, depth: nat, f: seq<byte>, u: seq<byte>)
    requires u != [] && u[0] > 32
    ensures MemberIsClean(m)
      ==> Outside(Formatted(m, last, depth, f)) == RenderMember(m, last, false, depth) + Outside(f)
    ensures !MemberIsClean(m) ==> Differs(Outside(Formatted(m, last, depth, f)), Unformatted(m, last, depth, u))
    decreases m, 0
  {
    var key, value := Quoted(m.key), Render(m.value, false, depth);
    var comma := When(!last, [COMMA]);
    var behind := comma + ([LF] + f);
    var tail := Render(m.value, true, depth) + behind;
    FormattedParts(m, last, depth, f);
    UnformattedParts(m, last, depth, u);
    OutsideTabs(depth, key + ([COLON] + ([TAB] + tail)));
    OutsideString(m.key, [COLON] + ([TAB] + tail));
    OutsideByte(COLON, [TAB] + tail);
    OutsideByte(TAB, tail);
    InsideByte(COLON, [TAB] + tail);
    InsideByte(TAB, tail);
    if EndsOpen(m.key) {
      StartsSolid(m.value, false, depth);
      OpenKeyDiffers(key, Inside(tail), value, comma + u);
    } else {
      ValueGoes(m.value, depth, behind);
      CommaGoes(last, f);
      CleanKeyGoes(m, last, depth, f, u);
    }
  }

  lemma OpenKeyDiffers(key: seq<byte>, x: seq<byte>, value: seq<byte>, y: seq<byte>)
    requires value != [] && value[0] > 32
    ensures Differs(key + ([COLON] + ([TAB] + x)), key + ([COLON] + (value + y)))
  {
    assert value + y == [value[0]] + (value[1..] + y);
    DiffersAt(key + [COLON], TAB, value[0], x, value[1..] + y);
    assert key + [COLON] + ([TAB] + x) == key + ([COLON] + ([TAB] + x));
    assert key + [COLON] + (value + y) == key + ([COLON] + (value + y));
  }

  /** The comma, if any, and the newline behind a member. */
  lemma CommaGoes(last: bool, f: seq<byte>)
    ensures var comma := When(!last, [COMMA]);
            Outside(comma + ([LF] + f)) == comma + Outside(f)
                && Inside(comma + ([LF] + f)) == comma + ([LF] + Inside(f))
  {
    OutsideByte(LF, f);
    InsideByte(LF, f);
    if last {
      assert [] + ([LF] + f) == [LF] + f && [] + Outside(f) == Outside(f)
          && [] + ([LF] + Inside(f)) == [LF] + Inside(f);
    } else {
      OutsideByte(COMMA, [LF] + f);
      InsideByte(COMMA, [LF] + f);
    }
  }

  /** The case of a key that does not end in a backslash. */
  lemma CleanKeyGoes(m: Member, last: bool, depth: nat, f: seq<byte>, u: seq<byte>)
    requires u != [] && u[0] > 32 && !EndsOpen(m.key)
    requires var comma := When(!last, [COMMA]); var behind := comma + ([LF] + f);
             && Goes(Clean(m.value), CleanUpToTheEnd(m.value), Render(m.value, true, depth),
                 Render(m.value, false, depth), behind)
             && Outside(behind) == comma + Outside(f) && Inside(behind) == comma + ([LF] + Inside(f))
             && Outside(Formatted(m, last, depth, f))
                 == Quoted(m.key) + ([COLON] + Outside(Render(m.value, true, depth) + behind))
    ensures Clean(m.value) ==> Outside(Formatted(m, last, depth, f)) == RenderMember(m, last, false, depth) + Outside(f)
    ensures !Clean(m.value) ==> Differs(Outside(Formatted(m, last, depth, f)), Unformatted(m, last, depth, u))
  {
    var key, value, comma := Quoted(m.key), Render(m.value, false, depth), When(!last, [COMMA]);
    var out := Outside(Render(m.value, true, depth) + (comma + ([LF] + f)));
    UnformattedParts(m, last, depth, u);
    UnformattedParts(m, last, depth, Outside(f));
    if !Clean(m.value) {
      if CleanUpToTheEnd(m.value) {
        NewlineDiffers(value, comma, Inside(f), u);
      } else {
        DiffersBefore(out, value, comma + u);
      }
      DiffersBehind([COLON], out, value + (comma + u));
      DiffersBehind(key, [COLON] + out, [COLON] + (value + (comma + u)));
    }
  }

  lemma FormattedParts(m: Member, last: bool, depth: nat, more: seq<byte>)
    ensures Formatted(m, last, depth, more)
            == Tabs(depth)
               + (Quoted(m.key) + ([COLON]
                   + ([TAB] + (Render(m.value, true, depth) + (When(!last, [COMMA]) + ([LF] + more))))))
  {
  }

  lemma UnformattedParts(m: Member, last: bool, depth: nat, more: seq<byte>)
    ensures Unformatted(m, last, depth, more)
            == Quoted(m.key) + ([COLON] + (Render(m.value, false, depth) + (When(!last, [COMMA]) + more)))
  {
  }

  lemma NewlineDiffers(value: seq<byte>, comma: seq<byte>, x: seq<byte>, u: seq<byte>)
    requires u != [] && u[0] > 32
    ensures Differs(value + (comma + ([LF] + x)), value + (comma + u))
  {
    DiffersAt(comma, LF, u[0], x, u[1..]);
    assert [u[0]] + u[1..] == u;
    DiffersBehind(value, comma + ([LF] + x), comma + u);
  }

  lemma JoinMembers(members: seq<Member>, depth: nat, close: seq<byte>, rest: seq<byte>)
    requires members != []
    requires var last, f, u := |members| == 1, RenderMembers(members[1..], true, depth) + close,
                               RenderMembers(members[1..], false, depth) + [RBRACE];
             var m := members[0];
             && (MemberIsClean(m)
                 ==> Outside(Formatted(m, last, depth, f)) == RenderMember(m, last, false, depth) + Outside(f))
             && (!MemberIsClean(m) ==> Differs(Outside(Formatted(m, last, depth, f)), Unformatted(m, last, depth, u)))
             && if MembersClean(members[1..]) then Outside(f) == u + Outside(rest) else Differs(Outside(f), u)
    ensures var f, u := RenderMembers(members, true, depth) + close, RenderMembers(members, false, depth) + [RBRACE];
            if MembersClean(members) then Outside(f) == u + Outside(rest) else Differs(Outside(f), u)
  {
    var m, last := members[0], |members| == 1;
    var f, u := RenderMembers(members[1..], true, depth) + close, RenderMembers(members[1..], false, depth) + [RBRACE];
    Associate(RenderMember(m, last, true, depth), RenderMembers(members[1..], true, depth), close);
    Associate(RenderMember(m, last, false, depth), RenderMembers(members[1..], false, depth), [RBRACE]);
    var head := RenderMember(m, last, false, depth);
    if MemberIsClean(m) {
      if MembersClean(members[1..]) {
        Associate(head, u, Outside(rest));
      } else {
        DiffersBehind(head, Outside(f), u);
      }
    }
  }

  // -------- the exact condition

  /** Minifying the formatted print gives exactly the unformatted print if and only if no string and no key
      ends in a backslash, but for a last string that nothing but closing brackets follows. */
  lemma MinifyKeepsMeaningIffClean(v: Value)
    ensures Outside(Print(v, true)) == Print(v, false) <==> CleanUpToTheEnd(v)
  {
    ValueGoes(v, 0, []);
    assert Print(v, true) + [] == Print(v, true) && Print(v, false) + [] == Print(v, false);
    if Clean(v) {
      CleanValueToTheEnd(v);
    }
  }

  /** In particular it does when there is no such string at all. */
  lemma MinifyKeepsCleanTrees(v: Value)
    requires Clean(v)
    ensures Outside(Print(v, true)) == Print(v, false)
  {
    CleanValueToTheEnd(v);
    MinifyKeepsMeaningIffClean(v);
  }

  /** A key that ends in a backslash is enough for the texts to differ. */
  lemma BackslashFoolsMinify()
    ensures var v := Object([Member([BACKSLASH], Null)]);
            Outside(Print(v, true)) != Print(v, false)
  {
    var members := [Member([BACKSLASH], Null)];
    assert !MembersClean(members);
    MinifyKeepsMeaningIffClean(Object(members));
  }

  /** The in-place algorithm on a buffer that holds a formatted print. */
  method MinifyPrinted(buf: array<byte>, ghost v: Value)
    requires var t := Print(v, true); |t| < buf.Length && buf[..|t|] == t && buf[|t|] == 0
    modifies buf
    ensures var t := Outside(Print(v, true));
            |t| < buf.Length && buf[..|t|] == t && buf[|t|] == 0 && (t == Print(v, false) <==> CleanUpToTheEnd(v))
  {
    ghost var t := Print(v, true);
    RenderHasNoNul(v, true, 0);
    assert buf[..] == t + [0] + buf[|t| + 1..];
    CStringStopsAtNul(t, buf[|t| + 1..]);
    MinifyKeepsMeaningIffClean(v);
    Minify.Minify(buf);
  }
}
