/** What the parser does not accept: every text it takes has the brackets, commas, colons and quotes of the value
    it gives, and a string with a bad escape is no string. */
module JsonSoundness {
  import opened Bytes
  import opened JsonNumber
  import opened JsonString
  import opened Json
  import opened JsonParse
  import opened JsonGrammar

  // -------- the shape of a text

  /** Nothing but bytes up to 32, which the parser takes for blanks. */
  predicate Blanks(s: seq<byte>, p: nat, q: nat) {
    p <= q <= |s| && forall i :: p <= i < q ==> s[i] <= 32
  }

  predicate Word(s: seq<byte>, p: nat, q: nat, word: string) {
    p <= q <= |s| && s[p..q] == Ascii(word)
  }

  predicate Enclosed(s: seq<byte>, p: nat, q: nat, left: byte, right: byte) {
    p + 1 < q <= |s| && s[p] == left && s[q - 1] == right
  }

  /** The bytes from `p` up to `q` are a text of the value: the words, a numeral that starts with a minus or a digit,
      a quoted string, or children in brackets. */
  ghost predicate Stands(s: seq<byte>, p: nat, q: nat, v: Value)
    decreases v, 0
  {
    match v
    case Null => Word(s, p, q, "null")
    case False => Word(s, p, q, "false")
    case True => Word(s, p, q, "true")
    case Number(d) => p < q <= |s| && (s[p] == 45 || 48 <= s[p] <= 57) && ParseNumber(s, p) == Some((d, q))
    case String(t) => Enclosed(s, p, q, 34, 34) && ParseString(s, p) == Some((t, q))
    case Array(items) =>
      Enclosed(s, p, q, 91, 93) && if items == [] then Blanks(s, p + 1, q - 1) else ItemsStand(s, p + 1, q - 1, items)
    case Object(members) =>
      Enclosed(s, p, q, 123, 125)
      && if members == [] then Blanks(s, p + 1, q - 1) else MembersStand(s, p + 1, q - 1, members)
  }

  /** A value from `a` to `b` between blanks. */
  ghost predicate Padded(s: seq<byte>, p: nat, a: nat, b: nat, q: nat, v: Value)
    decreases v, 1
  {
    Blanks(s, p, a) && a <= b && Stands(s, a, b, v) && Blanks(s, b, q)
  }

  /** Values between blanks, with a comma between any two. */
  ghost predicate ItemsStand(s: seq<byte>, p: nat, q: nat, items: seq<Value>)
    requires items != []
    decreases items, 0
  {
    exists a: nat, b: nat, c: nat :: Padded(s, p, a, b, c, items[0])
      && if |items| == 1 then c == q else c < q && Is(s, c, 44) && ItemsStand(s, c + 1, q, items[1..])
  }

  /** A quoted key and its value, between blanks, with a colon between them. */
  ghost predicate MemberStands(s: seq<byte>, p: nat, k: nat, e: nat, colon: nat, a: nat, b: nat, q: nat, m: Member)
    decreases m, 1
  {
    && Blanks(s, p, k) && Enclosed(s, k, e, 34, 34) && ParseString(s, k) == Some((m.key, e))
    && Blanks(s, e, colon) && Is(s, colon, 58) && Padded(s, colon + 1, a, b, q, m.value)
  }

  ghost predicate MembersStand(s: seq<byte>, p: nat, q: nat, members: seq<Member>)
    requires members != []
    decreases members, 0
  {
    exists k: nat, e: nat, colon: nat, a: nat, b: nat, c: nat :: MemberStands(s, p, k, e, colon, a, b, c, members[0])
      && if |members| == 1 then c == q else c < q && Is(s, c, 44) && MembersStand(s, c + 1, q, members[1..])
  }

  // -------- every accepted text has that shape

  lemma {:induction false} SkippedAreBlanks(s: seq<byte>, p: nat)
    requires p <= |s|
    ensures Blanks(s, p, Skip(s, p))
    decreases |s| - p
  {
    if !(p == |s| || s[p] > 32 || p + 1 == |s|) {
      SkippedAreBlanks(s, p + 1);
    }
  }

  lemma StringIsQuoted(s: seq<byte>, p: nat)
    requires p < |s| && ParseString(s, p).Some?
    ensures Enclosed(s, p, ParseString(s, p).value.1, 34, 34)
  {
  }

  lemma WordStands(s: seq<byte>, p: nat, v: Value)
    requires p <= |s|
    ensures At(s, p, NULL_TEXT) ==> Stands(s, p, p + 4, Null)
    ensures At(s, p, FALSE_TEXT) ==> Stands(s, p, p + 5, False)
    ensures At(s, p, TRUE_TEXT) ==> Stands(s, p, p + 4, True)
  {
    assert NULL_TEXT == Ascii("null") && FALSE_TEXT == Ascii("false") && TRUE_TEXT == Ascii("true");
    AtSlice(s, p, NULL_TEXT);
    AtSlice(s, p, FALSE_TEXT);
    AtSlice(s, p, TRUE_TEXT);
  }

  /** An accepted text has the shape of its value. */
  lemma {:induction false} AcceptedValueStands(s: seq<byte>, off: nat, depth: nat)
    requires off <= |s| && ParseValue(s, off, depth).Some?
    ensures var r := ParseValue(s, off, depth).value; Stands(s, off, r.1, r.0)
    decreases |s| - off, 4
  {
    hide ParseString, ParseNumber;
    WordStands(s, off, Null);
    if !At(s, off, NULL_TEXT) && !At(s, off, FALSE_TEXT) && !At(s, off, TRUE_TEXT) {
      assert ParseValue(s, off, depth) == ParseQuoted(s, off, depth);
      if Is(s, off, QUOTE) {
        StringIsQuoted(s, off);
      } else {
        assert ParseQuoted(s, off, depth) == ParseNumeral(s, off, depth);
        if !(s[off] == MINUS || IsDigit(s[off])) {
          assert ParseNumeral(s, off, depth) == ParseArray(s, off, depth);
          AcceptedContainerStands(s, off, depth);
        }
      }
    }
  }

  lemma {:induction false} AcceptedContainerStands(s: seq<byte>, off: nat, depth: nat)
    requires off <= |s| && ParseArray(s, off, depth).Some?
    ensures var r := ParseArray(s, off, depth).value; Stands(s, off, r.1, r.0)
    decreases |s| - off, 3
  {
    hide Stands, ParseItems, ParseMembers;
    if Is(s, off, LBRACKET) {
      AcceptedArrayStands(s, off, depth);
    } else {
      AcceptedObjectStands(s, off, depth);
    }
  }

  lemma {:induction false} AcceptedArrayStands(s: seq<byte>, off: nat, depth: nat)
    requires Is(s, off, LBRACKET) && depth < NESTING_LIMIT && ParseArray(s, off, depth).Some?
    ensures var r := ParseArray(s, off, depth).value; Stands(s, off, r.1, r.0)
    decreases |s| - off, 2
  {
    hide ParseItems, ItemsStand, ParseArray;
    OpenArray(s, off, depth);
    var first := Skip(s, off + 1);
    SkippedAreBlanks(s, off + 1);
    if !Is(s, first, RBRACKET) {
      AcceptedItemsStand(s, first, off + 1, depth + 1);
    }
  }

  lemma {:induction false} AcceptedObjectStands(s: seq<byte>, off: nat, depth: nat)
    requires Is(s, off, LBRACE) && depth < NESTING_LIMIT && ParseObject(s, off, depth).Some?
    ensures var r := ParseObject(s, off, depth).value; Stands(s, off, r.1, r.0)
    decreases |s| - off, 2
  {
    hide ParseMembers, MembersStand, ParseObject;
    OpenObject(s, off, depth);
    var first := Skip(s, off + 1);
    SkippedAreBlanks(s, off + 1);
    if !Is(s, first, RBRACE) {
      AcceptedMembersStand(s, first, off + 1, depth + 1);
    }
  }

  lemma BlanksJoin(s: seq<byte>, p: nat, q: nat, r: nat)
    requires Blanks(s, p, q) && Blanks(s, q, r)
    ensures Blanks(s, p, r)
  {
  }

  /** The items of an array, with blanks from `from` on in front of them. */
  lemma {:induction false} AcceptedItemsStand(s: seq<byte>, p: nat, from: nat, depth: nat)
    requires Blanks(s, from, p) && ParseItems(s, p, depth).Some?
    ensures var r := ParseItems(s, p, depth).value; ItemsStand(s, from, r.1, r.0) && Is(s, r.1, 93)
    decreases |s| - p, 5
  {
    hide ParseValue, Stands;
    var a := Skip(s, p);
    var item := ParseValue(s, a, depth).value;
    var c := Skip(s, item.1);
    AcceptedValueStands(s, a, depth);
    SkippedAreBlanks(s, p);
    SkippedAreBlanks(s, item.1);
    BlanksJoin(s, from, p, a);
    var r := ParseItems(s, p, depth).value;
    assert r.0[0] == item.0;
    assert Padded(s, from, a, item.1, c, r.0[0]);
    if Is(s, c, COMMA) {
      var rest := ParseItems(s, c + 1, depth).value.0;
      assert r.0[1..] == rest;
      AcceptedItemsStand(s, c + 1, c + 1, depth);
    }
  }

  lemma {:induction false} AcceptedMembersStand(s: seq<byte>, p: nat, from: nat, depth: nat)
    requires Blanks(s, from, p) && ParseMembers(s, p, depth).Some?
    ensures var r := ParseMembers(s, p, depth).value; MembersStand(s, from, r.1, r.0) && Is(s, r.1, 125)
    decreases |s| - p, 7
  {
    hide ParseMember, MemberStands;
    var member := ParseMember(s, p, depth).value;
    var k, e, colon, a, b := AcceptedMemberStands(s, p, from, depth);
    var r := ParseMembers(s, p, depth).value;
    assert r.0[0] == member.0;
    assert MemberStands(s, from, k, e, colon, a, b, member.1, r.0[0]);
    if Is(s, member.1, COMMA) {
      var rest := ParseMembers(s, member.1 + 1, depth).value.0;
      assert r.0[1..] == rest;
      AcceptedMembersStand(s, member.1 + 1, member.1 + 1, depth);
    }
  }

  lemma {:induction false} AcceptedMemberStands(s: seq<byte>, p: nat, from: nat, depth: nat)
      returns (k: nat, e: nat, colon: nat, a: nat, b: nat)
    requires Blanks(s, from, p) && ParseMember(s, p, depth).Some?
    ensures var r := ParseMember(s, p, depth).value; MemberStands(s, from, k, e, colon, a, b, r.1, r.0)
    decreases |s| - p, 6
  {
    hide ParseString, ParseValue, Stands;
    k := Skip(s, p);
    e := ParseString(s, k).value.1;
    colon := Skip(s, e);
    a := Skip(s, colon + 1);
    assert ParseMember(s, p, depth) == ParseKeyed(s, k, depth);
    assert ParseKeyed(s, k, depth) == ParseAfterKey(s, ParseString(s, k).value.0, e, depth);
    b := ParseValue(s, a, depth).value.1;
    SkippedAreBlanks(s, p);
    BlanksJoin(s, from, p, k);
    SkippedAreBlanks(s, e);
    SkippedAreBlanks(s, colon + 1);
    SkippedAreBlanks(s, b);
    StringIsQuoted(s, k);
    AcceptedValueStands(s, a, depth);
  }

  lemma {:induction false} NumberRunIsNumber(s: seq<byte>, off: nat, k: nat)
    requires off + k <= |s| && forall i :: off <= i < off + k ==> IsNumberByte(s[i])
    ensures forall i :: off <= i < off + NumberRun(s, off, k) ==> IsNumberByte(s[i])
    decreases |s| - off - k
  {
    if k < NUMBER_TEXT_MAX && off + k < |s| && IsNumberByte(s[off + k]) {
      NumberRunIsNumber(s, off, k + 1);
    }
  }

  /** No text of a value ends with a NUL. */
  lemma LastByteIsNoNul(s: seq<byte>, p: nat, q: nat, v: Value)
    requires Stands(s, p, q, v)
    ensures p < q <= |s| && s[q - 1] != 0
  {
    hide Strtod, ParseString, ItemsStand, MembersStand;
    match v
    case Null => assert s[q - 1] == s[p..q][3];
    case False => assert s[q - 1] == s[p..q][4];
    case True => assert s[q - 1] == s[p..q][3];
    case Number(_) => NumberRunIsNumber(s, p, 0);
    case _ =>
  }

  lemma BlanksOfText(text: seq<byte>, p: nat, q: nat)
    requires Blanks(text + [0], p, q) && q <= |text|
    ensures Blanks(text, p, q)
  {
    forall i | p <= i < q ensures text[i] <= 32 {
      assert (text + [0])[i] == text[i];
    }
  }

  lemma StartOf(text: seq<byte>)
    ensures var start := Start(text + [0]);
            Blanks(text, 0, start)
            || (start >= 3 && |text| > 3 && text[..3] == [0xEF, 0xBB, 0xBF] && Blanks(text, 3, start))
  {
    var s := text + [0];
    if |s| > 4 && At(s, 0, UTF8_BOM) {
      AtSlice(s, 0, UTF8_BOM);
      assert text[..3] == s[0..3];
      SkippedAreBlanks(s, 3);
      BlanksOfText(text, 3, Skip(s, 3));
    } else {
      SkippedAreBlanks(s, 0);
      BlanksOfText(text, 0, Skip(s, 0));
    }
  }

  /** What cJSON_Parse accepts is, behind a byte order mark and blanks, a text of the tree it gives. */
  lemma AcceptedTextStands(text: seq<byte>) returns (start: nat, end: nat)
    requires NoNul(text) && Parse(text).Some?
    ensures Stands(text + [0], start, end, Parse(text).value) && end <= |text|
    ensures Blanks(text, 0, start)
            || (start >= 3 && |text| > 3 && text[..3] == [0xEF, 0xBB, 0xBF] && Blanks(text, 3, start))
  {
    hide ParseValue, Stands, Start;
    var s := text + [0];
    CStringIsIdentity(text);
    start := Start(s);
    end := ParseValue(s, start, 0).value.1;
    AcceptedValueStands(s, start, 0);
    LastByteIsNoNul(s, start, end, Parse(text).value);
    StartOf(text);
  }

  /** A text that begins, behind the blanks, with any other byte is refused. */
  lemma BadFirstByte(s: seq<byte>, off: nat, depth: nat)
    requires off < |s|
    requires s[off] != 45 && !(48 <= s[off] <= 57) && s[off] != 34 && s[off] != 91 && s[off] != 123
    requires s[off] != 110 && s[off] != 102 && s[off] != 116
    ensures ParseValue(s, off, depth) == None
  {
    Dispatch(s, off, depth);
    assert ParseNumeral(s, off, depth) == ParseArray(s, off, depth) == ParseObject(s, off, depth);
  }

  // -------- strings that are refused

  /** The first pass crosses good pieces. */
  lemma {:induction false} ScanGoesOn(ps: seq<Piece>, s: seq<byte>, p: nat, next: nat)
    requires PiecesOk(ps) && At(s, p, PiecesText(ps)) && next == p + |PiecesText(ps)| < |s|
    ensures ScanEnd(s, p) == ScanEnd(s, next)
    decreases |ps|
  {
    hide PieceOk, PieceText, At, ScanEnd;
    if ps != [] {
      AtAppend(s, p, PieceText(ps[0]), PiecesText(ps[1..]));
      ScanPiece(ps[0], s, p, next);
      ScanGoesOn(ps[1..], s, p + |PieceText(ps[0])|, next);
    }
  }

  /** The second pass fails behind good pieces when it fails at what follows them. */
  lemma {:induction false} UnescapeFailsBehind(ps: seq<Piece>, s: seq<byte>, p: nat, next: nat, end: nat)
    requires PiecesOk(ps) && At(s, p, PiecesText(ps)) && next == p + |PiecesText(ps)| < end < |s|
    requires UnescapeStep(s, next, end) == None
    ensures Unescape(s, p, end) == None
    decreases |ps|
  {
    hide PieceOk, PieceText, At, UnescapeStep, PieceMeaning;
    if ps != [] {
      AtAppend(s, p, PieceText(ps[0]), PiecesText(ps[1..]));
      var q := p + |PieceText(ps[0])|;
      UnescapePiece(ps[0], s, p, q, end);
      UnescapeFailsBehind(ps[1..], s, q, next, end);
    }
  }

  /** A backslash with any other letter behind it. */
  predicate UnknownEscape(s: seq<byte>, p: nat) {
    p + 1 < |s| && s[p] == 92
    && s[p + 1] != 34 && s[p + 1] != 92 && s[p + 1] != 47 && s[p + 1] != 98 && s[p + 1] != 102 && s[p + 1] != 110
    && s[p + 1] != 114 && s[p + 1] != 116 && s[p + 1] != 117
  }

  /** The escape of a low surrogate, or of a high one without a low one behind it. */
  predicate LoneSurrogate(s: seq<byte>, p: nat, c: CodeUnit, spelling: Case) {
    && At(s, p, [92, 117] + CodeText(c, spelling))
    && (|| 0xDC00 <= c <= 0xDFFF
        || (0xD800 <= c <= 0xDBFF && (p + 7 < |s| ==> s[p + 6] != 92 || s[p + 7] != 117)))
  }

  /** A string whose first deviation from the grammar is such an escape is refused, whatever follows. */
  lemma BadEscapeIsRefused(ps: seq<Piece>, s: seq<byte>, off: nat, p: nat, c: CodeUnit, spelling: Case)
    requires PiecesOk(ps) && off < |s| && s[off] == 34 && At(s, off + 1, PiecesText(ps))
    requires p == off + 1 + |PiecesText(ps)| && (UnknownEscape(s, p) || LoneSurrogate(s, p, c, spelling))
    ensures ParseString(s, off) == None
  {
    hide PiecesText, PiecesOk, At;
    assert p + 1 < |s| && s[p] == 92 by {
      BackslashAt(s, p, c, spelling);
    }
    ScanGoesOn(ps, s, off + 1, p);
    var found := ScanEnd(s, off + 1);
    if found.Some? {
      var end := found.value;
      assert end > p;
      BadStep(s, p, end, c, spelling);
      UnescapeFailsBehind(ps, s, off + 1, p, end);
    }
  }

  lemma BackslashAt(s: seq<byte>, p: nat, c: CodeUnit, spelling: Case)
    requires UnknownEscape(s, p) || LoneSurrogate(s, p, c, spelling)
    ensures p + 1 < |s| && s[p] == 92
  {
    if !UnknownEscape(s, p) {
      var t := [92, 117] + CodeText(c, spelling);
      AtByte(s, p, t, 0);
      AtByte(s, p, t, 1);
    }
  }

  lemma BadStep(s: seq<byte>, p: nat, end: nat, c: CodeUnit, spelling: Case)
    requires p < end < |s| && (UnknownEscape(s, p) || LoneSurrogate(s, p, c, spelling))
    ensures UnescapeStep(s, p, end) == None
  {
    hide CodeText, At;
    if !UnknownEscape(s, p) {
      var hex := CodeText(c, spelling);
      AtAppend(s, p, [92, 117], hex);
      AtByte(s, p, [92, 117], 0);
      AtByte(s, p, [92, 117], 1);
      CodeTextIsRead(c, spelling);
      Hex4At(s, p + 2, hex);
    }
  }

  /** A string that is not closed is refused. */
  lemma OpenStringIsRefused(ps: seq<Piece>, s: seq<byte>, off: nat)
    requires PiecesOk(ps) && off < |s| && s[off] == 34 && s[off + 1..] == PiecesText(ps)
    ensures ParseString(s, off) == None
  {
    hide PiecesText, PiecesOk;
    var t := s + [34];
    AtSlice(t, off + 1, PiecesText(ps));
    assert t[off + 1..|s|] == s[off + 1..];
    ScanPieces(ps, t, off + 1, |s|);
    if ScanEnd(s, off + 1).Some? {
      ScanIsLocal(s, off + 1, [34]);
    }
  }

  lemma {:induction false} ScanIsLocal(s: seq<byte>, p: nat, more: seq<byte>)
    requires p <= |s| && ScanEnd(s, p).Some?
    ensures ScanEnd(s + more, p) == ScanEnd(s, p)
    decreases |s| - p
  {
    if s[p] != QUOTE {
      ScanIsLocal(s, if s[p] == BACKSLASH then p + 2 else p + 1, more);
    }
  }
}
