/** The parser of cJSON as a function: value and offset for every input, or failure. */
module JsonParse {
  import opened Bytes
  import opened JsonNumber
  import opened JsonString
  import opened Json

  /** buffer_skip_whitespace: past every byte up to 32, but never past the last byte. */
  function Skip(s: seq<byte>, p: nat): (q: nat)
    requires p <= |s|
    ensures p <= q <= |s| && (p < |s| ==> q < |s|)
    decreases |s| - p
  {
    if p == |s| || s[p] > 32 || p + 1 == |s| then p else Skip(s, p + 1)
  }

  /** Byte `b` stands at `p`. */
  predicate Is(s: seq<byte>, p: nat, b: byte) {
    p < |s| && s[p] == b
  }

  /** parse_value tries one kind of value after the other; each function below takes one kind and
      passes everything else on to the next. */
  function ParseValue(s: seq<byte>, off: nat, depth: nat): (r: Option<(Value, nat)>)
    requires off <= |s|
    ensures r.Some? ==> off < r.value.1 <= |s|
    decreases |s| - off, 4
  {
    if At(s, off, NULL_TEXT) then Some((Null, off + 4))
    else if At(s, off, FALSE_TEXT) then Some((False, off + 5))
    else if At(s, off, TRUE_TEXT) then Some((True, off + 4))
    else ParseQuoted(s, off, depth)
  }

  function ParseQuoted(s: seq<byte>, off: nat, depth: nat): (r: Option<(Value, nat)>)
    requires off <= |s|
    ensures r.Some? ==> off < r.value.1 <= |s|
    decreases |s| - off, 3
  {
    if Is(s, off, QUOTE) then
      var r := ParseString(s, off);
      if r.None? then None else Some((String(r.value.0), r.value.1))
    else ParseNumeral(s, off, depth)
  }

  function ParseNumeral(s: seq<byte>, off: nat, depth: nat): (r: Option<(Value, nat)>)
    requires off <= |s|
    ensures r.Some? ==> off < r.value.1 <= |s|
    decreases |s| - off, 2
  {
    if off < |s| && (s[off] == MINUS || IsDigit(s[off])) then
      var r := ParseNumber(s, off);
      if r.None? then None else Some((Number(r.value.0), r.value.1))
    else ParseArray(s, off, depth)
  }

  function ParseArray(s: seq<byte>, off: nat, depth: nat): (r: Option<(Value, nat)>)
    requires off <= |s|
    ensures r.Some? ==> off < r.value.1 <= |s|
    decreases |s| - off, 1
  {
    if !Is(s, off, LBRACKET) then ParseObject(s, off, depth)
    else if depth >= NESTING_LIMIT then None
    else
      var first := Skip(s, off + 1);
      if Is(s, first, RBRACKET) then Some((Array([]), first + 1))
      else
        var r := ParseItems(s, first, depth + 1);
        if r.None? then None else Some((Array(r.value.0), r.value.1 + 1))
  }

  function ParseObject(s: seq<byte>, off: nat, depth: nat): (r: Option<(Value, nat)>)
    requires off <= |s|
    ensures r.Some? ==> off < r.value.1 <= |s|
    decreases |s| - off, 0
  {
    if !Is(s, off, LBRACE) || depth >= NESTING_LIMIT then None
    else
      var first := Skip(s, off + 1);
      if Is(s, first, RBRACE) then Some((Object([]), first + 1))
      else
        var r := ParseMembers(s, first, depth + 1);
        if r.None? then None else Some((Object(r.value.0), r.value.1 + 1))
  }

  /** The elements of an array from `p` on; the offset is that of the closing bracket. */
  function ParseItems(s: seq<byte>, p: nat, depth: nat): (r: Option<(seq<Value>, nat)>)
    requires p <= |s|
    ensures r.Some? ==> p < r.value.1 < |s| && r.value.0 != []
    decreases |s| - p, 5
  {
    var item := ParseValue(s, Skip(s, p), depth);
    if item.None? then None
    else
      var next := Skip(s, item.value.1);
      if Is(s, next, COMMA) then
        var rest := ParseItems(s, next + 1, depth);
        if rest.None? then None else Some(([item.value.0] + rest.value.0, rest.value.1))
      else if Is(s, next, RBRACKET) then Some(([item.value.0], next))
      else None
  }

  /** One `key : value` from `p` on; the offset is the one after the blanks that follow it. */
  function ParseMember(s: seq<byte>, p: nat, depth: nat): (r: Option<(Member, nat)>)
    requires p <= |s|
    ensures r.Some? ==> p < r.value.1 <= |s|
    decreases |s| - p, 6
  {
    var start := Skip(s, p);
    if start == |s| then None else ParseKeyed(s, start, depth)
  }

  function ParseKeyed(s: seq<byte>, start: nat, depth: nat): (r: Option<(Member, nat)>)
    requires start < |s|
    ensures r.Some? ==> start < r.value.1 <= |s|
    decreases |s| - start, 5
  {
    var key := ParseString(s, start);
    if key.None? then None else ParseAfterKey(s, key.value.0, key.value.1, depth)
  }

  function ParseAfterKey(s: seq<byte>, key: seq<byte>, p: nat, depth: nat): (r: Option<(Member, nat)>)
    requires p <= |s|
    ensures r.Some? ==> p < r.value.1 <= |s|
    decreases |s| - p, 5
  {
    var colon := Skip(s, p);
    if !Is(s, colon, COLON) then None
    else
      var item := ParseValue(s, Skip(s, colon + 1), depth);
      if item.None? then None
      else Some((Member(key, item.value.0), Skip(s, item.value.1)))
  }

  /** The members of an object from `p` on; the offset is that of the closing brace. */
  function ParseMembers(s: seq<byte>, p: nat, depth: nat): (r: Option<(seq<Member>, nat)>)
    requires p <= |s|
    ensures r.Some? ==> p < r.value.1 < |s| && r.value.0 != []
    decreases |s| - p, 7
  {
    var member := ParseMember(s, p, depth);
    if member.None? then None
    else
      var next := member.value.1;
      if Is(s, next, COMMA) then
        var rest := ParseMembers(s, next + 1, depth);
        if rest.None? then None else Some(([member.value.0] + rest.value.0, rest.value.1))
      else if Is(s, next, RBRACE) then Some(([member.value.0], next))
      else None
  }

  // -------- one step of each kind

  lemma WordsStartWithLetters(s: seq<byte>, off: nat)
    requires off < |s|
    ensures s[off] != 110 ==> !At(s, off, NULL_TEXT)
    ensures s[off] != 102 ==> !At(s, off, FALSE_TEXT)
    ensures s[off] != 116 ==> !At(s, off, TRUE_TEXT)
  {
    if At(s, off, NULL_TEXT) { AtByte(s, off, NULL_TEXT, 0); }
    if At(s, off, FALSE_TEXT) { AtByte(s, off, FALSE_TEXT, 0); }
    if At(s, off, TRUE_TEXT) { AtByte(s, off, TRUE_TEXT, 0); }
  }

  /** Which function takes over, by the first byte. */
  lemma Dispatch(s: seq<byte>, off: nat, depth: nat)
    requires off < |s| && s[off] != 110 && s[off] != 102 && s[off] != 116
    ensures ParseValue(s, off, depth) == ParseQuoted(s, off, depth)
    ensures s[off] != QUOTE ==> ParseValue(s, off, depth) == ParseNumeral(s, off, depth)
    ensures s[off] == LBRACKET || s[off] == LBRACE ==> ParseValue(s, off, depth) == ParseArray(s, off, depth)
    ensures s[off] == LBRACE ==> ParseValue(s, off, depth) == ParseObject(s, off, depth)
  {
    WordsStartWithLetters(s, off);
  }

  lemma {:induction false} SkipTwice(s: seq<byte>, p: nat)
    requires p <= |s|
    ensures Skip(s, Skip(s, p)) == Skip(s, p)
    decreases |s| - p
  {
    if p < |s| && s[p] <= 32 && p + 1 < |s| {
      SkipTwice(s, p + 1);
    }
  }

  /** The array and object loops skip the blanks before the first child twice, without harm. */
  lemma SkipBeforeItems(s: seq<byte>, p: nat, depth: nat)
    requires p <= |s|
    ensures ParseItems(s, Skip(s, p), depth) == ParseItems(s, p, depth)
  {
    SkipTwice(s, p);
  }

  lemma SkipBeforeMembers(s: seq<byte>, p: nat, depth: nat)
    requires p <= |s|
    ensures ParseMembers(s, Skip(s, p), depth) == ParseMembers(s, p, depth)
  {
    SkipTwice(s, p);
    assert ParseMember(s, Skip(s, p), depth) == ParseMember(s, p, depth);
  }

  function JoinItems(vs: seq<Value>, r: Option<(seq<Value>, nat)>): Option<(seq<Value>, nat)> {
    if r.None? then None else Some((vs + r.value.0, r.value.1))
  }

  function JoinMembers(ms: seq<Member>, r: Option<(seq<Member>, nat)>): Option<(seq<Member>, nat)> {
    if r.None? then None else Some((ms + r.value.0, r.value.1))
  }

  /** What the list is, once its next item has been parsed: the loop of parse_array decides by the byte
      after the item. */
  lemma ItemsStep(s: seq<byte>, p: nat, depth: nat, v: Value, r: nat, done: seq<Value>)
    requires p <= |s| && ParseValue(s, Skip(s, p), depth) == Some((v, r))
    ensures var next := Skip(s, r);
            JoinItems(done, ParseItems(s, p, depth))
            == if Is(s, next, COMMA) then JoinItems(done + [v], ParseItems(s, next + 1, depth))
               else if Is(s, next, RBRACKET) then Some((done + [v], next))
               else None
  {
    var next := Skip(s, r);
    if Is(s, next, COMMA) {
      MoreItems(s, p, depth, v, r);
      var rest := ParseItems(s, next + 1, depth);
      if rest.Some? {
        assert done + ([v] + rest.value.0) == (done + [v]) + rest.value.0;
      }
    }
  }

  lemma JoinNothing(r: Option<(seq<Value>, nat)>, t: Option<(seq<Member>, nat)>)
    ensures JoinItems([], r) == r && JoinMembers([], t) == t
  {
    if r.Some? {
      assert [] + r.value.0 == r.value.0;
    }
    if t.Some? {
      assert [] + t.value.0 == t.value.0;
    }
  }

  lemma NothingAtTheEnd(s: seq<byte>, depth: nat)
    ensures ParseItems(s, |s|, depth).None? && ParseMembers(s, |s|, depth).None?
  {
    assert ParseArray(s, |s|, depth) == ParseObject(s, |s|, depth) == None;
    assert ParseQuoted(s, |s|, depth) == ParseNumeral(s, |s|, depth) == None;
    assert ParseValue(s, |s|, depth) == None;
    assert ParseMember(s, |s|, depth) == None;
  }

  lemma OpenArray(s: seq<byte>, off: nat, depth: nat)
    requires Is(s, off, LBRACKET) && depth < NESTING_LIMIT
    ensures var first := Skip(s, off + 1); var r := ParseItems(s, first, depth + 1);
            ParseArray(s, off, depth) == if Is(s, first, RBRACKET) then Some((Array([]), first + 1))
                                         else if r.None? then None else Some((Array(r.value.0), r.value.1 + 1))
  {
  }

  lemma OpenObject(s: seq<byte>, off: nat, depth: nat)
    requires Is(s, off, LBRACE) && depth < NESTING_LIMIT
    ensures var first := Skip(s, off + 1); var r := ParseMembers(s, first, depth + 1);
            ParseObject(s, off, depth) == if Is(s, first, RBRACE) then Some((Object([]), first + 1))
                                          else if r.None? then None else Some((Object(r.value.0), r.value.1 + 1))
  {
  }

  /** An array by its parts: what stands behind the bracket and the blanks decides. */
  lemma ArrayByParts(s: seq<byte>, off: nat, depth: nat, first: nat, ok: bool, values: seq<Value>, end: nat)
    requires Is(s, off, LBRACKET) && depth < NESTING_LIMIT && first == Skip(s, off + 1)
    requires var r := ParseItems(s, first, depth + 1);
             if Is(s, first, RBRACKET) then ok && values == [] && end == first
             else ok == r.Some? && (ok ==> r.value == (values, end))
    ensures ParseArray(s, off, depth) == if ok then Some((Array(values), end + 1)) else None
  {
    OpenArray(s, off, depth);
  }

  lemma ObjectByParts(s: seq<byte>, off: nat, depth: nat, first: nat, ok: bool, members: seq<Member>, end: nat)
    requires Is(s, off, LBRACE) && depth < NESTING_LIMIT && first == Skip(s, off + 1)
    requires var r := ParseMembers(s, first, depth + 1);
             if Is(s, first, RBRACE) then ok && members == [] && end == first
             else ok == r.Some? && (ok ==> r.value == (members, end))
    ensures ParseObject(s, off, depth) == if ok then Some((Object(members), end + 1)) else None
  {
    OpenObject(s, off, depth);
  }

  lemma ItemsFail(s: seq<byte>, p: nat, depth: nat)
    requires p <= |s| && ParseValue(s, Skip(s, p), depth).None?
    ensures ParseItems(s, p, depth).None?
  {
  }

  lemma MembersStep(s: seq<byte>, p: nat, depth: nat, m: Member, next: nat, done: seq<Member>)
    requires p <= |s| && ParseMember(s, p, depth) == Some((m, next))
    ensures JoinMembers(done, ParseMembers(s, p, depth))
            == if Is(s, next, COMMA) then JoinMembers(done + [m], ParseMembers(s, next + 1, depth))
               else if Is(s, next, RBRACE) then Some((done + [m], next))
               else None
  {
    if Is(s, next, COMMA) {
      MoreMembers(s, p, depth, m, next);
      var rest := ParseMembers(s, next + 1, depth);
      if rest.Some? {
        assert done + ([m] + rest.value.0) == (done + [m]) + rest.value.0;
      }
    }
  }

  lemma MembersFail(s: seq<byte>, p: nat, depth: nat)
    requires p <= |s| && ParseMember(s, p, depth).None?
    ensures ParseMembers(s, p, depth).None?
  {
  }

  lemma LastItem(s: seq<byte>, p: nat, depth: nat, v: Value, r: nat)
    requires p <= |s| && ParseValue(s, Skip(s, p), depth) == Some((v, r)) && Is(s, Skip(s, r), RBRACKET)
    ensures ParseItems(s, p, depth) == Some(([v], Skip(s, r)))
  {
  }

  lemma MoreItems(s: seq<byte>, p: nat, depth: nat, v: Value, r: nat)
    requires p <= |s| && ParseValue(s, Skip(s, p), depth) == Some((v, r)) && Is(s, Skip(s, r), COMMA)
    ensures var rest := ParseItems(s, Skip(s, r) + 1, depth);
            ParseItems(s, p, depth) == if rest.None? then None else Some(([v] + rest.value.0, rest.value.1))
  {
  }

  lemma MemberParts(s: seq<byte>, p: nat, depth: nat, key: seq<byte>, gap: nat, v: Value, end: nat)
    requires p <= |s| && Skip(s, p) < |s| && ParseString(s, Skip(s, p)) == Some((key, gap))
    requires Is(s, Skip(s, gap), COLON)
    requires ParseValue(s, Skip(s, Skip(s, gap) + 1), depth) == Some((v, end))
    ensures ParseMember(s, p, depth) == Some((Member(key, v), Skip(s, end)))
  {
    assert ParseAfterKey(s, key, gap, depth) == Some((Member(key, v), Skip(s, end)));
    assert ParseKeyed(s, Skip(s, p), depth) == ParseAfterKey(s, key, gap, depth);
  }

  lemma LastMember(s: seq<byte>, p: nat, depth: nat, m: Member, next: nat)
    requires p <= |s| && ParseMember(s, p, depth) == Some((m, next)) && Is(s, next, RBRACE)
    ensures ParseMembers(s, p, depth) == Some(([m], next))
  {
  }

  lemma MoreMembers(s: seq<byte>, p: nat, depth: nat, m: Member, next: nat)
    requires p <= |s| && ParseMember(s, p, depth) == Some((m, next)) && Is(s, next, COMMA)
    ensures var rest := ParseMembers(s, next + 1, depth);
            ParseMembers(s, p, depth) == if rest.None? then None else Some(([m] + rest.value.0, rest.value.1))
  {
  }

  const UTF8_BOM: seq<byte> := [0xEF, 0xBB, 0xBF]

  /** Where the value starts: after a byte order mark and blanks. */
  function Start(s: seq<byte>): (p: nat)
    ensures p <= |s|
  {
    Skip(s, if |s| > 4 && At(s, 0, UTF8_BOM) then 3 else 0)
  }

  /** cJSON_ParseWithLengthOpts on a buffer of any length. */
  function ParseBuffer(s: seq<byte>, requireNul: bool): Option<Value> {
    var r := ParseValue(s, Start(s), 0);
    if r.None? then None
    else if requireNul && !Is(s, Skip(s, r.value.1), 0) then None
    else Some(r.value.0)
  }

  /** cJSON_Parse on a buffer that holds a NUL after `text`. */
  function Parse(text: seq<byte>): Option<Value> {
    ParseBuffer(CString(text) + [0], false)
  }

  // -------- every parsed tree

  /** A tree of C strings. */
  predicate WellFormed(v: Value)
    decreases v
  {
    match v
    case String(t) => NoNul(t)
    case Array(items) => ItemsWellFormed(items)
    case Object(members) => MembersWellFormed(members)
    case _ => true
  }

  predicate ItemsWellFormed(items: seq<Value>)
    decreases items
  {
    items == [] || (WellFormed(items[0]) && ItemsWellFormed(items[1..]))
  }

  predicate MembersWellFormed(members: seq<Member>)
    decreases members
  {
    members == [] || (NoNul(members[0].key) && WellFormed(members[0].value) && MembersWellFormed(members[1..]))
  }

  /** Every tree the printer handles is a tree of C strings. */
  lemma {:induction false} PrintableIsWellFormed(v: Value)
    requires Printable(v)
    ensures WellFormed(v)
    decreases v
  {
    match v
    case Array(items) => PrintableItemsAreWellFormed(items);
    case Object(members) => PrintableMembersAreWellFormed(members);
    case _ =>
  }

  lemma {:induction false} PrintableItemsAreWellFormed(items: seq<Value>)
    requires ItemsPrintable(items)
    ensures ItemsWellFormed(items)
    decreases items
  {
    if items != [] {
      PrintableIsWellFormed(items[0]);
      PrintableItemsAreWellFormed(items[1..]);
    }
  }

  lemma {:induction false} PrintableMembersAreWellFormed(members: seq<Member>)
    requires MembersPrintable(members)
    ensures MembersWellFormed(members)
    decreases members
  {
    if members != [] {
      PrintableIsWellFormed(members[0].value);
      PrintableMembersAreWellFormed(members[1..]);
    }
  }

  /** A parsed tree holds C strings only and never nests deeper than the limit. */
  lemma {:induction false} ParsedTreeIsBounded(s: seq<byte>, off: nat, depth: nat)
    requires off <= |s| && depth <= NESTING_LIMIT && ParseValue(s, off, depth).Some?
    ensures var v := ParseValue(s, off, depth).value.0; WellFormed(v) && NestsWithin(v, NESTING_LIMIT - depth)
    decreases |s| - off, 4
  {
    if !At(s, off, NULL_TEXT) && !At(s, off, FALSE_TEXT) && !At(s, off, TRUE_TEXT) {
      assert ParseValue(s, off, depth) == ParseQuoted(s, off, depth);
      if !Is(s, off, QUOTE) {
        assert ParseQuoted(s, off, depth) == ParseNumeral(s, off, depth);
        if !(s[off] == MINUS || IsDigit(s[off])) {
          assert ParseNumeral(s, off, depth) == ParseArray(s, off, depth);
          ParsedContainerIsBounded(s, off, depth);
        }
      }
    }
  }

  lemma {:induction false} ParsedContainerIsBounded(s: seq<byte>, off: nat, depth: nat)
    requires off <= |s| && depth <= NESTING_LIMIT && ParseArray(s, off, depth).Some?
    ensures var v := ParseArray(s, off, depth).value.0; WellFormed(v) && NestsWithin(v, NESTING_LIMIT - depth)
    decreases |s| - off, 3
  {
    if Is(s, off, LBRACKET) {
      if !Is(s, Skip(s, off + 1), RBRACKET) {
        ParsedItemsAreBounded(s, Skip(s, off + 1), depth + 1);
      }
    } else {
      assert ParseArray(s, off, depth) == ParseObject(s, off, depth);
      if !Is(s, Skip(s, off + 1), RBRACE) {
        ParsedMembersAreBounded(s, Skip(s, off + 1), depth + 1);
      }
    }
  }

  lemma {:induction false} ParsedItemsAreBounded(s: seq<byte>, p: nat, depth: nat)
    requires p <= |s| && depth <= NESTING_LIMIT && ParseItems(s, p, depth).Some?
    ensures var vs := ParseItems(s, p, depth).value.0; ItemsWellFormed(vs) && ItemsNest(vs, NESTING_LIMIT - depth)
    decreases |s| - p, 5
  {
    ParsedTreeIsBounded(s, Skip(s, p), depth);
    var item := ParseValue(s, Skip(s, p), depth).value;
    var next := Skip(s, item.1);
    if Is(s, next, COMMA) {
      var rest := ParseItems(s, next + 1, depth).value.0;
      assert ([item.0] + rest)[1..] == rest;
      ParsedItemsAreBounded(s, next + 1, depth);
    }
  }

  lemma {:induction false} ParsedMembersAreBounded(s: seq<byte>, p: nat, depth: nat)
    requires p <= |s| && depth <= NESTING_LIMIT && ParseMembers(s, p, depth).Some?
    ensures var ms := ParseMembers(s, p, depth).value.0; MembersWellFormed(ms) && MembersNest(ms, NESTING_LIMIT - depth)
    decreases |s| - p, 6
  {
    ParsedMemberIsBounded(s, p, depth);
    var member := ParseMember(s, p, depth).value;
    if Is(s, member.1, COMMA) {
      var rest := ParseMembers(s, member.1 + 1, depth).value.0;
      assert ([member.0] + rest)[1..] == rest;
      ParsedMembersAreBounded(s, member.1 + 1, depth);
    }
  }

  lemma {:induction false} ParsedMemberIsBounded(s: seq<byte>, p: nat, depth: nat)
    requires p <= |s| && depth <= NESTING_LIMIT && ParseMember(s, p, depth).Some?
    ensures var m := ParseMember(s, p, depth).value.0;
            NoNul(m.key) && WellFormed(m.value) && NestsWithin(m.value, NESTING_LIMIT - depth)
    decreases |s| - p, 5
  {
    var key := ParseString(s, Skip(s, p)).value;
    assert ParseMember(s, p, depth) == ParseKeyed(s, Skip(s, p), depth);
    assert ParseKeyed(s, Skip(s, p), depth) == ParseAfterKey(s, key.0, key.1, depth);
    ParsedTreeIsBounded(s, Skip(s, Skip(s, key.1) + 1), depth);
  }
}
