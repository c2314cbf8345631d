/** Parsing undoes printing: every printed text is a JSON text that denotes the printed tree. */
module JsonRoundTrip {
  import opened Bytes
  import opened JsonNumber
  import opened JsonNumeral
  import opened JsonString
  import opened Json
  import opened JsonParse
  import opened JsonGrammar
  import opened Unicode

  // -------- strings

  function PieceOf(b: byte): Piece {
    if b == QUOTE then Short(QuotationMark)
    else if b == BACKSLASH then Short(ReverseSolidus)
    else if b == 8 then Short(Backspace)
    else if b == 12 then Short(FormFeed)
    else if b == LF then Short(LineFeed)
    else if b == CR then Short(CarriageReturn)
    else if b == TAB then Short(Tab)
    else if b < 32 then Code(b as nat, Case(false, false, false, false))
    else Plain(b)
  }

  lemma PieceOfIsFaithful(b: byte)
    requires b != 0
    ensures PieceOk(PieceOf(b)) && PieceText(PieceOf(b)) == EscapeByte(b) && PieceMeaning(PieceOf(b)) == [b]
  {
    hide CodeText, HexDigit;
    if PieceOf(b).Code? {
      ControlCode(b);
    }
  }

  /** The printer spells a control byte in lower case. */
  lemma ControlCode(b: byte)
    requires b < 32
    ensures CodeText(b as nat, Case(false, false, false, false))
            == [DIGIT0, DIGIT0, HexDigit(b as nat / 16), HexDigit(b as nat % 16)]
    ensures Utf8(b as nat) == [b]
  {
    LowerDigit(b as nat / 16);
    LowerDigit(b as nat % 16);
    LowerDigit(0);
  }

  lemma LowerDigit(v: nat)
    requires v < 16
    ensures DigitOf(v, false) == HexDigit(v)
  {
  }

  function PiecesOf(s: seq<byte>): seq<Piece> {
    if s == [] then [] else [PieceOf(s[0])] + PiecesOf(s[1..])
  }

  lemma {:induction false} PiecesOfAreFaithful(s: seq<byte>)
    requires NoNul(s)
    ensures PiecesOk(PiecesOf(s)) && PiecesText(PiecesOf(s)) == Escaped(s) && PiecesMeaning(PiecesOf(s)) == s
  {
    hide PieceOf, PieceText, PieceMeaning, EscapeByte, PieceOk;
    if s != [] {
      PieceOfIsFaithful(s[0]);
      PiecesOfAreFaithful(s[1..]);
      assert PiecesOf(s)[1..] == PiecesOf(s[1..]);
    }
  }

  /** parse_string inverts print_string_ptr on every C string, wherever the literal stands. */
  lemma ParseUndoesQuote(text: seq<byte>, s: seq<byte>, off: nat)
    requires NoNul(text) && At(s, off, Quoted(text))
    ensures off < |s| && ParseString(s, off) == Some((text, off + |Quoted(text)|))
  {
    PiecesOfAreFaithful(text);
    ParseStringText(PiecesOf(text), s, off);
  }

  // -------- trees

  function SyntaxOf(v: Value, format: bool, depth: nat): Syntax
    decreases v
  {
    match v
    case Null => NullWord
    case False => FalseWord
    case True => TrueWord
    case Number(d) => Numeric(Integer(Saturate(d)))
    case String(t) => Literal(PiecesOf(t))
    case Array(items) => if items == [] then EmptyArray([]) else ArrayOf(ElementsOf(items, [], format, depth + 1))
    case Object(members) =>
      if members == [] then EmptyObject(When(format, [LF]) + When(format, Tabs(depth)))
      else ObjectOf(FieldsOf(members, format, depth))
  }

  function ElementsOf(items: seq<Value>, lead: seq<byte>, format: bool, depth: nat): Elements
    requires items != []
    decreases items
  {
    var e := Element(lead, SyntaxOf(items[0], format, depth), []);
    if |items| == 1 then LastElement(e)
    else MoreElements(e, ElementsOf(items[1..], When(format, [SPACE]), format, depth))
  }

  function FieldOf(m: Member, after: seq<byte>, format: bool, depth: nat): Field
    decreases m
  {
    Field(When(format, [LF]) + When(format, Tabs(depth + 1)), PiecesOf(m.key), [], When(format, [TAB]),
          SyntaxOf(m.value, format, depth + 1), after)
  }

  /** `depth` is that of the object itself; its last field is followed by the line of the brace. */
  function FieldsOf(members: seq<Member>, format: bool, depth: nat): Fields
    requires members != []
    decreases members
  {
    if |members| == 1 then LastField(FieldOf(members[0], When(format, [LF]) + When(format, Tabs(depth)), format, depth))
    else MoreFields(FieldOf(members[0], [], format, depth), FieldsOf(members[1..], format, depth))
  }

  lemma BlankPieces(format: bool, depth: nat)
    ensures Blank(When(format, [LF]) + When(format, Tabs(depth))) && Blank(When(format, [SPACE]))
      && Blank(When(format, [TAB]))
  {
  }

  predicate Faithful(c: Syntax, v: Value, format: bool, depth: nat) {
    Valid(c) && Text(c) == Render(v, format, depth) && Meaning(c) == v
  }

  lemma {:induction false} SyntaxOfIsFaithful(v: Value, format: bool, depth: nat)
    requires Printable(v)
    ensures Faithful(SyntaxOf(v, format, depth), v, format, depth)
    decreases v, 1
  {
    match v
    case Array(items) => ArraySyntaxIsFaithful(items, format, depth);
    case Object(members) => ObjectSyntaxIsFaithful(members, format, depth);
    case Number(d) => NumberIsFaithful(d, format, depth);
    case String(t) => StringIsFaithful(t, format, depth);
    case _ =>
  }

  lemma NumberIsFaithful(d: real, format: bool, depth: nat)
    requires IsInt32(d)
    ensures Faithful(SyntaxOf(Number(d), format, depth), Number(d), format, depth)
  {
    hide PiecesText, ElementsText, FieldsText, RenderItems, RenderMembers, NumeralText, NumeralValue, NumeralOk,
         Decimal;
    IntegerIsNumeral(Saturate(d));
  }

  lemma StringIsFaithful(t: seq<byte>, format: bool, depth: nat)
    requires NoNul(t)
    ensures Faithful(SyntaxOf(String(t), format, depth), String(t), format, depth)
  {
    PiecesOfAreFaithful(t);
  }

  lemma {:induction false} ArraySyntaxIsFaithful(items: seq<Value>, format: bool, depth: nat)
    requires ItemsPrintable(items)
    ensures Faithful(SyntaxOf(Array(items), format, depth), Array(items), format, depth)
    decreases items, 1
  {
    if items != [] {
      ElementsOfAreFaithful(items, [], format, depth + 1);
      assert [] + RenderItems(items, format, depth + 1) == RenderItems(items, format, depth + 1);
    }
  }

  lemma {:induction false} ObjectSyntaxIsFaithful(members: seq<Member>, format: bool, depth: nat)
    requires MembersPrintable(members)
    ensures Faithful(SyntaxOf(Object(members), format, depth), Object(members), format, depth)
    decreases members, 1
  {
    ObjectText(members, format, depth);
    if members != [] {
      FieldsOfAreFaithful(members, format, depth);
    } else {
      EmptyObjectIsFaithful(format, depth);
    }
  }

  lemma EmptyObjectIsFaithful(format: bool, depth: nat)
    ensures Faithful(SyntaxOf(Object([]), format, depth), Object([]), format, depth)
  {
    BlankPieces(format, depth);
    ObjectText([], format, depth);
    assert MembersBlock([], format, depth) == When(format, [LF]) + When(format, Tabs(depth));
  }

  lemma ObjectText(members: seq<Member>, format: bool, depth: nat)
    ensures Render(Object(members), format, depth) == [LBRACE] + MembersBlock(members, format, depth) + [RBRACE]
  {
  }

  /** Everything between the braces. */
  function MembersBlock(members: seq<Member>, format: bool, depth: nat): seq<byte> {
    When(format, [LF]) + RenderMembers(members, format, depth + 1) + When(format, Tabs(depth))
  }

  /** `es` is a text of `items` behind the blanks `lead`. */
  predicate ItemsFaithful(es: Elements, items: seq<Value>, lead: seq<byte>, format: bool, depth: nat) {
    ElementsOk(es) && ElementsText(es) == lead + RenderItems(items, format, depth) && ElementsMeaning(es) == items
  }

  lemma LastItemShape(lead: seq<byte>, t: seq<byte>)
    ensures lead + (t + []) == lead + (t + [] + [])
  {
  }

  lemma MoreItemsShape(lead: seq<byte>, t: seq<byte>, space: seq<byte>, rest: seq<byte>)
    ensures (lead + (t + [])) + ([COMMA] + (space + rest)) == lead + (t + ([COMMA] + space) + rest)
  {
  }

  lemma LastElementIsFaithful(v: Value, c: Syntax, lead: seq<byte>, format: bool, depth: nat)
    requires Faithful(c, v, format, depth) && Blank(lead)
    ensures ItemsFaithful(LastElement(Element(lead, c, [])), [v], lead, format, depth)
  {
    var e := Element(lead, c, []);
    LastItemShape(lead, Text(c));
    assert ElementOk(e) && ElementText(e) == lead + (Text(c) + []);
    assert [v][1..] == [];
  }

  lemma MoreElementsAreFaithful(v: Value, c: Syntax, lead: seq<byte>, es: Elements, rest: seq<Value>, format: bool,
      depth: nat)
    requires Faithful(c, v, format, depth) && Blank(lead)
    requires rest != [] && ItemsFaithful(es, rest, When(format, [SPACE]), format, depth)
    ensures ItemsFaithful(MoreElements(Element(lead, c, []), es), [v] + rest, lead, format, depth)
  {
    var e := Element(lead, c, []);
    MoreItemsShape(lead, Text(c), When(format, [SPACE]), RenderItems(rest, format, depth));
    assert ElementOk(e) && ElementText(e) == lead + (Text(c) + []);
    assert ([v] + rest)[1..] == rest;
  }

  lemma {:induction false} ElementsOfAreFaithful(items: seq<Value>, lead: seq<byte>, format: bool, depth: nat)
    requires items != [] && ItemsPrintable(items) && Blank(lead)
    ensures ItemsFaithful(ElementsOf(items, lead, format, depth), items, lead, format, depth)
    decreases items, 0
  {
    var c := SyntaxOf(items[0], format, depth);
    SyntaxOfIsFaithful(items[0], format, depth);
    if |items| == 1 {
      LastElementIsFaithful(items[0], c, lead, format, depth);
      assert items == [items[0]];
    } else {
      BlankPieces(format, depth);
      var rest := items[1..];
      ElementsOfAreFaithful(rest, When(format, [SPACE]), format, depth);
      MoreElementsAreFaithful(items[0], c, lead, ElementsOf(rest, When(format, [SPACE]), format, depth), rest, format,
          depth);
      assert items == [items[0]] + rest;
    }
  }

  /** One printed line of an object, without the comma and the end of the line. */
  function MemberCore(m: Member, format: bool, depth: nat): seq<byte> {
    When(format, Tabs(depth)) + Quoted(m.key) + [COLON] + When(format, [TAB]) + Render(m.value, format, depth)
  }

  lemma FieldOfIsFaithful(m: Member, after: seq<byte>, format: bool, depth: nat)
    requires NoNul(m.key) && Blank(after)
    requires Faithful(SyntaxOf(m.value, format, depth + 1), m.value, format, depth + 1)
    ensures var f := FieldOf(m, after, format, depth);
            FieldOk(f) && FieldMeaning(f) == m
            && FieldText(f) == When(format, [LF]) + MemberCore(m, format, depth + 1) + after
  {
    BlankPieces(format, depth + 1);
    PiecesOfAreFaithful(m.key);
    var f := FieldOf(m, after, format, depth);
    FieldShape(f.before, StringText(f.key), f.lead, Text(f.item), after);
    BeforeShape(When(format, [LF]), When(format, Tabs(depth + 1)), Quoted(m.key), f.lead, Text(f.item), after);
  }

  lemma FieldShape(before: seq<byte>, key: seq<byte>, lead: seq<byte>, t: seq<byte>, after: seq<byte>)
    ensures before + (key + ([] + ([COLON] + (lead + (t + after))))) == before + (key + [COLON] + lead + t) + after
  {
  }

  lemma BeforeShape(a: seq<byte>, b: seq<byte>, key: seq<byte>, lead: seq<byte>, t: seq<byte>, after: seq<byte>)
    ensures (a + b) + (key + [COLON] + lead + t) + after == a + (b + key + [COLON] + lead + t) + after
  {
  }

  lemma LastShape(a: seq<byte>, core: seq<byte>, b: seq<byte>)
    ensures a + ((core + [] + a) + []) + b == a + core + (a + b)
  {
  }

  lemma MoreShape(a: seq<byte>, core: seq<byte>, rest: seq<byte>, b: seq<byte>)
    ensures a + ((core + [COMMA] + a) + rest) + b == (a + core + []) + ([COMMA] + (a + rest + b))
  {
  }

  /** `fs` is a text of `members`, with the end of the line before it and the line of the brace. */
  predicate BlockFaithful(fs: Fields, members: seq<Member>, format: bool, depth: nat) {
    FieldsOk(fs) && FieldsText(fs) == MembersBlock(members, format, depth) && FieldsMeaning(fs) == members
  }

  lemma LastFieldIsFaithful(m: Member, format: bool, depth: nat)
    requires NoNul(m.key) && Faithful(SyntaxOf(m.value, format, depth + 1), m.value, format, depth + 1)
    ensures BlockFaithful(LastField(FieldOf(m, When(format, [LF]) + When(format, Tabs(depth)), format, depth)), [m],
      format, depth)
  {
    var nl, tabs := When(format, [LF]), When(format, Tabs(depth));
    BlankPieces(format, depth);
    FieldOfIsFaithful(m, nl + tabs, format, depth);
    LastShape(nl, MemberCore(m, format, depth + 1), tabs);
    assert RenderMembers([m], format, depth + 1) == RenderMember(m, true, format, depth + 1) + [] by {
      assert [m][1..] == [];
    }
  }

  lemma MoreFieldsAreFaithful(m: Member, fs: Fields, rest: seq<Member>, format: bool, depth: nat)
    requires NoNul(m.key) && Faithful(SyntaxOf(m.value, format, depth + 1), m.value, format, depth + 1)
    requires rest != [] && BlockFaithful(fs, rest, format, depth)
    ensures BlockFaithful(MoreFields(FieldOf(m, [], format, depth), fs), [m] + rest, format, depth)
  {
    var nl, tabs := When(format, [LF]), When(format, Tabs(depth));
    FieldOfIsFaithful(m, [], format, depth);
    MoreShape(nl, MemberCore(m, format, depth + 1), RenderMembers(rest, format, depth + 1), tabs);
    RenderMembersCons(m, rest, format, depth + 1);
  }

  lemma RenderMembersCons(m: Member, rest: seq<Member>, format: bool, depth: nat)
    requires rest != []
    ensures RenderMembers([m] + rest, format, depth)
      == RenderMember(m, false, format, depth) + RenderMembers(rest, format, depth)
  {
    assert ([m] + rest)[1..] == rest;
  }

  lemma {:induction false} FieldsOfAreFaithful(members: seq<Member>, format: bool, depth: nat)
    requires members != [] && MembersPrintable(members)
    ensures BlockFaithful(FieldsOf(members, format, depth), members, format, depth)
    decreases members, 0
  {
    var m := members[0];
    SyntaxOfIsFaithful(m.value, format, depth + 1);
    if |members| == 1 {
      LastFieldIsFaithful(m, format, depth);
      assert members == [m];
    } else {
      var rest := members[1..];
      FieldsOfAreFaithful(rest, format, depth);
      MoreFieldsAreFaithful(m, FieldsOf(rest, format, depth), rest, format, depth);
      assert members == [m] + rest;
    }
  }

  // -------- whole texts

  /** Parsing a printed tree gives the tree back, formatted or not, children in order. */
  lemma ParseUndoesPrint(v: Value, format: bool)
    requires Printable(v) && NestsWithin(v, NESTING_LIMIT)
    ensures Parse(Print(v, format)) == Some(v)
  {
    var c := SyntaxOf(v, format, 0);
    SyntaxOfIsFaithful(v, format, 0);
    RenderHasNoNul(v, format, 0);
    ParserIsComplete([], c, []);
    assert Document([], c, []) == Print(v, format);
  }

  lemma ParsedTextNests(text: seq<byte>)
    requires Parse(text).Some?
    ensures WellFormed(Parse(text).value) && NestsWithin(Parse(text).value, NESTING_LIMIT)
  {
    var s := CString(text) + [0];
    ParsedTreeIsBounded(s, Start(s), 0);
  }

  /** The nesting limit is sharp: a printed tree comes back exactly when it nests within the limit. */
  lemma RoundTripIffNested(v: Value, format: bool)
    requires Printable(v)
    ensures Parse(Print(v, format)) == Some(v) <==> NestsWithin(v, 1000)
  {
    if NestsWithin(v, NESTING_LIMIT) {
      ParseUndoesPrint(v, format);
    } else if Parse(Print(v, format)) == Some(v) {
      ParsedTextNests(Print(v, format));
    }
  }

  /** Two trees with the same text are the same tree. */
  lemma PrintIsInjective(v: Value, w: Value, format: bool, other: bool)
    requires Printable(v) && NestsWithin(v, NESTING_LIMIT) && Printable(w) && NestsWithin(w, NESTING_LIMIT)
    requires Print(v, format) == Print(w, other)
    ensures v == w
  {
    ParseUndoesPrint(v, format);
    ParseUndoesPrint(w, other);
  }

}
