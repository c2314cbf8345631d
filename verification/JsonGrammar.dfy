/** JSON texts by the grammar of RFC 8259 (sections 2 to 7), what they denote, and the proof that the
    parser accepts every one of them. A text is given by its syntax tree: blanks, literals, escapes. */
module JsonGrammar {
  import opened Bytes
  import opened JsonNumber
  import opened JsonNumeral
  import opened JsonString
  import opened Json
  import opened JsonParse
  import opened Unicode

  // -------- strings (section 7)

  type CodeUnit = c: nat | c < 0x1_0000

  /** A code point that UTF-16 writes as a surrogate pair. */
  type Astral = c: nat | 0x1_0000 <= c <= 0x10_FFFF witness 0x1_0000

  /** Which of the four digits of an escape are in upper case. */
  datatype Case = Case(first: bool, second: bool, third: bool, fourth: bool)

  /** The escapes of one letter. */
  datatype Letter = QuotationMark | ReverseSolidus | Solidus | Backspace | FormFeed | LineFeed | CarriageReturn | Tab

  datatype Piece =
    | Plain(b: byte)
    | Short(letter: Letter)
    | Code(code: CodeUnit, spelling: Case)
    | Pair(point: Astral, high: Case, low: Case)

  function LetterByte(l: Letter): byte {
    match l
    case QuotationMark => 0x22
    case ReverseSolidus => 0x5C
    case Solidus => 0x2F
    case Backspace => 0x62
    case FormFeed => 0x66
    case LineFeed => 0x6E
    case CarriageReturn => 0x72
    case Tab => 0x74
  }

  function LetterMeaning(l: Letter): byte {
    match l
    case QuotationMark => 0x22
    case ReverseSolidus => 0x5C
    case Solidus => 0x2F
    case Backspace => 0x08
    case FormFeed => 0x0C
    case LineFeed => 0x0A
    case CarriageReturn => 0x0D
    case Tab => 0x09
  }

  /** "0123456789abcdef" and "0123456789ABCDEF" */
  const LOWER_DIGITS: seq<byte> := [48, 49, 50, 51, 52, 53, 54, 55, 56, 57, 97, 98, 99, 100, 101, 102]
  const UPPER_DIGITS: seq<byte> := [48, 49, 50, 51, 52, 53, 54, 55, 56, 57, 65, 66, 67, 68, 69, 70]

  function DigitOf(v: nat, upper: bool): byte
    requires v < 16
  {
    if upper then UPPER_DIGITS[v] else LOWER_DIGITS[v]
  }

  /** The four hexadecimal digits of a code unit. */
  function CodeText(c: CodeUnit, spelling: Case): seq<byte> {
    [DigitOf(c / 0x1000, spelling.first), DigitOf(c / 0x100 % 0x10, spelling.second),
     DigitOf(c / 0x10 % 0x10, spelling.third), DigitOf(c % 0x10, spelling.fourth)]
  }

  /** The surrogates of a code point, by section 2.1 of RFC 2781: ten bits each. */
  function HighUnit(c: Astral): CodeUnit {
    0xD800 + (c - 0x1_0000) / 0x400
  }

  function LowUnit(c: Astral): CodeUnit {
    0xDC00 + (c - 0x1_0000) % 0x400
  }

  /** A piece the grammar allows, without `\u0000` and without a lone surrogate. */
  predicate PieceOk(p: Piece) {
    match p
    case Plain(b) => b >= 32 && b != QUOTE && b != BACKSLASH
    case Code(code, _) => 0 < code && !(0xD800 <= code <= 0xDFFF)
    case _ => true
  }

  function PieceText(p: Piece): seq<byte> {
    match p
    case Plain(b) => [b]
    case Short(letter) => [BACKSLASH, LetterByte(letter)]
    case Code(code, spelling) => [BACKSLASH, LOWER_U] + CodeText(code, spelling)
    case Pair(point, high, low) =>
      [BACKSLASH, LOWER_U] + CodeText(HighUnit(point), high) + ([BACKSLASH, LOWER_U] + CodeText(LowUnit(point), low))
  }

  function PieceMeaning(p: Piece): seq<byte>
    requires PieceOk(p)
  {
    match p
    case Plain(b) => [b]
    case Short(letter) => [LetterMeaning(letter)]
    case Code(code, _) => Utf8(code)
    case Pair(point, _, _) => Utf8(point)
  }

  lemma DigitValue(v: nat, upper: bool)
    requires v < 16
    ensures IsHex(DigitOf(v, upper)) && HexValue(DigitOf(v, upper)) == v
  {
  }

  /** The parser reads the digits of a code unit as the code unit, whatever their case. */
  lemma CodeTextIsRead(c: CodeUnit, spelling: Case)
    ensures IsCode(CodeText(c, spelling)) && Hex4(CodeText(c, spelling), 0) == c
  {
    hide DigitOf, HexValue;
    DigitValue(c / 0x1000, spelling.first);
    DigitValue(c / 0x100 % 0x10, spelling.second);
    DigitValue(c / 0x10 % 0x10, spelling.third);
    DigitValue(c % 0x10, spelling.fourth);
    FourNibbles(c);
  }

  lemma FourNibbles(c: CodeUnit)
    ensures ((c / 0x1000 * 16 + c / 0x100 % 0x10) * 16 + c / 0x10 % 0x10) * 16 + c % 0x10 == c
  {
    assert c / 0x100 == c / 0x10 / 0x10 && c / 0x1000 == c / 0x10 / 0x10 / 0x10;
  }

  /** The parser puts the surrogates of a code point together again. */
  lemma PairIsRead(c: Astral)
    ensures IsHighSurrogate(HighUnit(c)) && IsLowSurrogate(LowUnit(c)) && PairValue(HighUnit(c), LowUnit(c)) == c
  {
  }

  predicate IsCode(hex: seq<byte>) {
    |hex| == 4 && IsHex4(hex, 0)
  }

  predicate PiecesOk(ps: seq<Piece>) {
    forall i :: 0 <= i < |ps| ==> PieceOk(ps[i])
  }

  function PiecesText(ps: seq<Piece>): seq<byte> {
    if ps == [] then [] else PieceText(ps[0]) + PiecesText(ps[1..])
  }

  function PiecesMeaning(ps: seq<Piece>): (m: seq<byte>)
    requires PiecesOk(ps)
  {
    if ps == [] then [] else PieceMeaning(ps[0]) + PiecesMeaning(ps[1..])
  }

  lemma Hex4At(s: seq<byte>, p: nat, hex: seq<byte>)
    requires IsCode(hex) && At(s, p, hex)
    ensures IsHex4(s, p) && Hex4(s, p) == Hex4(hex, 0)
  {
    AtByte(s, p, hex, 0);
    AtByte(s, p, hex, 1);
    AtByte(s, p, hex, 2);
    AtByte(s, p, hex, 3);
  }

  /** Both passes of the string parser take one piece as a unit. */
  predicate TakenAsUnit(piece: Piece, s: seq<byte>, p: nat, end: nat)
    requires PieceOk(piece)
  {
    var e := p + |PieceText(piece)|;
    && e <= end < |s|
    && UnescapeStep(s, p, end) == Some((|PieceText(piece)|, PieceMeaning(piece)))
    && ScanEnd(s, p) == ScanEnd(s, e)
  }

  lemma ParseCode(piece: Piece, s: seq<byte>, p: nat, end: nat)
    requires piece.Code? && PieceOk(piece) && At(s, p, PieceText(piece)) && p + 6 <= end < |s|
    ensures TakenAsUnit(piece, s, p, end)
  {
    hide Utf8, CodeText, At, Hex4;
    var t, hex := PieceText(piece), CodeText(piece.code, piece.spelling);
    CodeTextIsRead(piece.code, piece.spelling);
    AtByte(s, p, t, 0);
    AtByte(s, p, t, 1);
    AtAppend(s, p, [BACKSLASH, LOWER_U], hex);
    Hex4At(s, p + 2, hex);
    ScanPlain(s, p + 2);
  }

  lemma ParsePair(piece: Piece, s: seq<byte>, p: nat, end: nat)
    requires piece.Pair? && PieceOk(piece) && At(s, p, PieceText(piece)) && p + 12 <= end < |s|
    ensures TakenAsUnit(piece, s, p, end)
  {
    hide Utf8, PairValue, At, Hex4, IsHex4, CodeText, HighUnit, LowUnit;
    var u := [BACKSLASH, LOWER_U];
    var high, low := CodeText(HighUnit(piece.point), piece.high), CodeText(LowUnit(piece.point), piece.low);
    CodeTextIsRead(HighUnit(piece.point), piece.high);
    CodeTextIsRead(LowUnit(piece.point), piece.low);
    PairIsRead(piece.point);
    AtAppend(s, p, u + high, u + low);
    AtAppend(s, p, u, high);
    AtAppend(s, p + 6, u, low);
    AtByte(s, p, u, 0);
    AtByte(s, p, u, 1);
    AtByte(s, p + 6, u, 0);
    AtByte(s, p + 6, u, 1);
    Hex4At(s, p + 2, high);
    Hex4At(s, p + 8, low);
    ScanEscape(s, p);
    ScanEscape(s, p + 6);
  }

  /** The first pass crosses a hexadecimal escape. */
  lemma ScanEscape(s: seq<byte>, p: nat)
    requires p + 6 <= |s| && s[p] == BACKSLASH && IsHex4(s, p + 2)
    ensures ScanEnd(s, p) == ScanEnd(s, p + 6)
  {
    ScanPlain(s, p + 2);
  }

  lemma ParsePiece(piece: Piece, s: seq<byte>, p: nat, end: nat)
    requires PieceOk(piece) && At(s, p, PieceText(piece)) && p + |PieceText(piece)| <= end < |s|
    ensures TakenAsUnit(piece, s, p, end)
  {
    match piece
    case Plain(b) =>
      AtByte(s, p, [b], 0);
    case Short(letter) =>
      AtByte(s, p, [BACKSLASH, LetterByte(letter)], 0);
      AtByte(s, p, [BACKSLASH, LetterByte(letter)], 1);
    case Code(_, _) => ParseCode(piece, s, p, end);
    case Pair(_, _, _) => ParsePair(piece, s, p, end);
  }

  lemma PieceHasNoNul(piece: Piece)
    requires PieceOk(piece)
    ensures NoNul(PieceMeaning(piece))
  {
    match piece
    case Code(code, _) => NoNulInUtf8(code);
    case Pair(point, _, _) => NoNulInUtf8(point);
    case _ =>
  }

  lemma ScanPlain(s: seq<byte>, p: nat)
    requires IsHex4(s, p)
    ensures ScanEnd(s, p) == ScanEnd(s, p + 4)
  {
    assert ScanEnd(s, p) == ScanEnd(s, p + 1) == ScanEnd(s, p + 2);
    assert ScanEnd(s, p + 2) == ScanEnd(s, p + 3) == ScanEnd(s, p + 4);
  }

  lemma NoNulInUtf8(c: nat)
    requires 0 < c <= 0x10FFFF
    ensures NoNul(Utf8(c))
  {
  }

  lemma ScanPiece(piece: Piece, s: seq<byte>, p: nat, end: nat)
    requires PieceOk(piece) && At(s, p, PieceText(piece)) && p + |PieceText(piece)| <= end < |s|
    ensures ScanEnd(s, p) == ScanEnd(s, p + |PieceText(piece)|)
  {
    ParsePiece(piece, s, p, end);
  }

  lemma {:induction false} ScanPieces(ps: seq<Piece>, s: seq<byte>, p: nat, end: nat)
    requires PiecesOk(ps) && At(s, p, PiecesText(ps)) && end == p + |PiecesText(ps)| && Is(s, end, QUOTE)
    ensures ScanEnd(s, p) == Some(end)
  {
    hide PieceOk, PieceText, At;
    if ps != [] {
      AtAppend(s, p, PieceText(ps[0]), PiecesText(ps[1..]));
      ScanPiece(ps[0], s, p, end);
      ScanPieces(ps[1..], s, p + |PieceText(ps[0])|, end);
    }
  }

  lemma {:induction false} UnescapePieces(ps: seq<Piece>, s: seq<byte>, p: nat, end: nat)
    requires PiecesOk(ps) && At(s, p, PiecesText(ps)) && end == p + |PiecesText(ps)| && Is(s, end, QUOTE)
    ensures Unescape(s, p, end) == Some(PiecesMeaning(ps))
  {
    hide PieceOk, PieceText, At, PieceMeaning;
    if ps != [] {
      AtAppend(s, p, PieceText(ps[0]), PiecesText(ps[1..]));
      var next := p + |PieceText(ps[0])|;
      UnescapePiece(ps[0], s, p, next, end);
      UnescapePieces(ps[1..], s, next, end);
    }
  }

  lemma UnescapePiece(piece: Piece, s: seq<byte>, p: nat, next: nat, end: nat)
    requires PieceOk(piece) && At(s, p, PieceText(piece)) && next == p + |PieceText(piece)| <= end < |s|
    ensures Unescape(s, p, end) == Prepend(PieceMeaning(piece), Unescape(s, next, end))
  {
    hide PieceOk, At, PieceMeaning, ScanEnd;
    ParsePiece(piece, s, p, end);
    PieceIsNotEmpty(piece);
    UnescapeBy(s, p, next, end, PieceMeaning(piece));
  }

  lemma UnescapeBy(s: seq<byte>, p: nat, next: nat, end: nat, meaning: seq<byte>)
    requires p < next <= end < |s| && UnescapeStep(s, p, end) == Some((next - p, meaning))
    ensures Unescape(s, p, end) == Prepend(meaning, Unescape(s, next, end))
  {
  }

  lemma PieceIsNotEmpty(piece: Piece)
    requires PieceOk(piece)
    ensures |PieceText(piece)| > 0
  {
  }

  lemma {:induction false} PiecesHaveNoNul(ps: seq<Piece>)
    requires PiecesOk(ps)
    ensures NoNul(PiecesMeaning(ps))
  {
    if ps != [] {
      PieceHasNoNul(ps[0]);
      PiecesHaveNoNul(ps[1..]);
    }
  }

  function StringText(ps: seq<Piece>): seq<byte> {
    [QUOTE] + PiecesText(ps) + [QUOTE]
  }

  lemma ParseStringText(ps: seq<Piece>, s: seq<byte>, off: nat)
    requires PiecesOk(ps) && At(s, off, StringText(ps))
    ensures off < |s| && ParseString(s, off) == Some((PiecesMeaning(ps), off + |StringText(ps)|))
    ensures s[off] == QUOTE
  {
    hide ParseString, PiecesMeaning, PiecesText, PieceOk;
    AtBetween(s, off, QUOTE, PiecesText(ps), QUOTE);
    ParsePieces(ps, s, off, off + 1 + |PiecesText(ps)|);
  }

  /** The pieces between two quotes. */
  lemma ParsePieces(ps: seq<Piece>, s: seq<byte>, off: nat, end: nat)
    requires PiecesOk(ps) && Is(s, off, QUOTE) && At(s, off + 1, PiecesText(ps))
    requires end == off + 1 + |PiecesText(ps)| && Is(s, end, QUOTE)
    ensures ParseString(s, off) == Some((PiecesMeaning(ps), end + 1))
  {
    ScanPieces(ps, s, off + 1, end);
    UnescapePieces(ps, s, off + 1, end);
    PiecesHaveNoNul(ps);
    LiteralParses(s, off, end, PiecesMeaning(ps));
  }

  lemma LiteralParses(s: seq<byte>, off: nat, end: nat, meaning: seq<byte>)
    requires Is(s, off, QUOTE) && ScanEnd(s, off + 1) == Some(end) && Unescape(s, off + 1, end) == Some(meaning)
      && NoNul(meaning)
    ensures ParseString(s, off) == Some((meaning, end + 1))
  {
    CStringIsIdentity(meaning);
  }

  // -------- values (sections 2 to 6)

  datatype Syntax =
    | NullWord
    | FalseWord
    | TrueWord
    | Numeric(numeral: Numeral)
    | Literal(pieces: seq<Piece>)
    | EmptyArray(blank: seq<byte>)
    | ArrayOf(elements: Elements)
    | EmptyObject(blank: seq<byte>)
    | ObjectOf(fields: Fields)

  datatype Element = Element(before: seq<byte>, item: Syntax, after: seq<byte>)
  datatype Elements = LastElement(e: Element) | MoreElements(e: Element, rest: Elements)

  datatype Field = Field(before: seq<byte>, key: seq<Piece>, gap: seq<byte>, lead: seq<byte>, item: Syntax,
      after: seq<byte>)
  datatype Fields = LastField(f: Field) | MoreFields(f: Field, rest: Fields)

  predicate Blank(t: seq<byte>) {
    forall i :: 0 <= i < |t| ==> t[i] == SPACE || t[i] == TAB || t[i] == LF || t[i] == CR
  }

  /** The grammar's own conditions, with numbers that fit the buffer of parse_number. */
  predicate Valid(c: Syntax) {
    match c
    case Numeric(n) => NumeralOk(n) && |NumeralText(n)| <= NUMBER_TEXT_MAX
    case Literal(pieces) => PiecesOk(pieces)
    case EmptyArray(blank) => Blank(blank)
    case ArrayOf(elements) => ElementsOk(elements)
    case EmptyObject(blank) => Blank(blank)
    case ObjectOf(fields) => FieldsOk(fields)
    case _ => true
  }

  predicate ElementOk(e: Element) {
    Blank(e.before) && Valid(e.item) && Blank(e.after)
  }

  predicate ElementsOk(es: Elements) {
    match es
    case LastElement(e) => ElementOk(e)
    case MoreElements(e, rest) => ElementOk(e) && ElementsOk(rest)
  }

  predicate FieldOk(f: Field) {
    Blank(f.before) && PiecesOk(f.key) && Blank(f.gap) && Blank(f.lead) && Valid(f.item) && Blank(f.after)
  }

  predicate FieldsOk(fs: Fields) {
    match fs
    case LastField(f) => FieldOk(f)
    case MoreFields(f, rest) => FieldOk(f) && FieldsOk(rest)
  }

  function Text(c: Syntax): seq<byte>
    decreases c, 0
  {
    match c
    case NullWord => NULL_TEXT
    case FalseWord => FALSE_TEXT
    case TrueWord => TRUE_TEXT
    case Numeric(n) => NumeralText(n)
    case Literal(pieces) => StringText(pieces)
    case EmptyArray(blank) => [LBRACKET] + blank + [RBRACKET]
    case ArrayOf(elements) => [LBRACKET] + ElementsText(elements) + [RBRACKET]
    case EmptyObject(blank) => [LBRACE] + blank + [RBRACE]
    case ObjectOf(fields) => [LBRACE] + FieldsText(fields) + [RBRACE]
  }

  function Padded(before: seq<byte>, c: Syntax, after: seq<byte>): seq<byte>
    decreases c, 1
  {
    before + (Text(c) + after)
  }

  function ElementText(e: Element): seq<byte> {
    Padded(e.before, e.item, e.after)
  }

  function ElementsText(es: Elements): seq<byte> {
    match es
    case LastElement(e) => ElementText(e)
    case MoreElements(e, rest) => ElementText(e) + ([COMMA] + ElementsText(rest))
  }

  function FieldText(f: Field): seq<byte> {
    f.before + (StringText(f.key) + (f.gap + ([COLON] + Padded(f.lead, f.item, f.after))))
  }

  function FieldsText(fs: Fields): seq<byte> {
    match fs
    case LastField(f) => FieldText(f)
    case MoreFields(f, rest) => FieldText(f) + ([COMMA] + FieldsText(rest))
  }

  /** The tree a text denotes. */
  function Meaning(c: Syntax): Value
    requires Valid(c)
  {
    match c
    case NullWord => Null
    case FalseWord => False
    case TrueWord => True
    case Numeric(n) => Number(NumeralValue(n))
    case Literal(pieces) => String(PiecesMeaning(pieces))
    case EmptyArray(_) => Array([])
    case ArrayOf(elements) => Array(ElementsMeaning(elements))
    case EmptyObject(_) => Object([])
    case ObjectOf(fields) => Object(FieldsMeaning(fields))
  }

  function ElementsMeaning(es: Elements): seq<Value>
    requires ElementsOk(es)
  {
    match es
    case LastElement(e) => assert ElementOk(e); [Meaning(e.item)]
    case MoreElements(e, rest) => assert ElementOk(e); [Meaning(e.item)] + ElementsMeaning(rest)
  }

  function FieldMeaning(f: Field): Member
    requires FieldOk(f)
  {
    Member(PiecesMeaning(f.key), Meaning(f.item))
  }

  function FieldsMeaning(fs: Fields): seq<Member>
    requires FieldsOk(fs)
  {
    match fs
    case LastField(f) => [FieldMeaning(f)]
    case MoreFields(f, rest) => [FieldMeaning(f)] + FieldsMeaning(rest)
  }

  // -------- completeness

  lemma {:induction false} SkipBlank(s: seq<byte>, p: nat, blank: seq<byte>)
    requires At(s, p, blank) && Blank(blank)
    requires p + |blank| < |s| && s[p + |blank|] > 32
    ensures Skip(s, p) == p + |blank|
    decreases |blank|
  {
    if blank != [] {
      AtByte(s, p, blank, 0);
      assert blank == [blank[0]] + blank[1..];
      AtAppend(s, p, [blank[0]], blank[1..]);
      SkipBlank(s, p + 1, blank[1..]);
    }
  }

  /** The byte at `e` cannot prolong a number: what follows every value in a JSON text. */
  predicate Delimited(s: seq<byte>, e: nat) {
    e < |s| && !IsNumberByte(s[e])
  }

  lemma FirstByte(c: Syntax, s: seq<byte>, off: nat)
    requires Valid(c) && At(s, off, Text(c))
    ensures off < |s| && 32 < s[off] < 0x80 && s[off] != COMMA && s[off] != RBRACKET && s[off] != RBRACE
    ensures match c
            case NullWord => At(s, off, NULL_TEXT)
            case FalseWord => s[off] == 102 && At(s, off, FALSE_TEXT)
            case TrueWord => s[off] == 116 && At(s, off, TRUE_TEXT)
            case Numeric(_) => s[off] == MINUS || IsDigit(s[off])
            case Literal(_) => s[off] == QUOTE
            case EmptyArray(_) => s[off] == LBRACKET
            case ArrayOf(_) => s[off] == LBRACKET
            case EmptyObject(_) => s[off] == LBRACE
            case ObjectOf(_) => s[off] == LBRACE
  {
    AtByte(s, off, Text(c), 0);
  }

  /** The parser takes the text of a value, wherever it stands, and yields what it denotes. */
  lemma {:induction false} ParseText(c: Syntax, s: seq<byte>, off: nat, depth: nat)
    requires Valid(c) && At(s, off, Text(c)) && Delimited(s, off + |Text(c)|)
    requires depth <= NESTING_LIMIT && NestsWithin(Meaning(c), NESTING_LIMIT - depth)
    ensures ParseValue(s, off, depth) == Some((Meaning(c), off + |Text(c)|))
    decreases c, 0
  {
    hide ParseValue, At, ElementsText, FieldsText, PiecesText, PiecesMeaning, PieceOk, NumeralText;
    match c
    case ArrayOf(elements) => ParseArrayText(elements, s, off, depth);
    case ObjectOf(fields) => ParseObjectText(fields, s, off, depth);
    case EmptyArray(blank) => ParseEmpty(blank, s, off, depth, LBRACKET, RBRACKET);
    case EmptyObject(blank) => ParseEmpty(blank, s, off, depth, LBRACE, RBRACE);
    case _ => ParseLeaf(c, s, off, depth);
  }

  lemma ParseLeaf(c: Syntax, s: seq<byte>, off: nat, depth: nat)
    requires Valid(c) && At(s, off, Text(c)) && Delimited(s, off + |Text(c)|)
    requires !c.ArrayOf? && !c.ObjectOf? && !c.EmptyArray? && !c.EmptyObject?
    ensures ParseValue(s, off, depth) == Some((Meaning(c), off + |Text(c)|))
  {
    hide ParseValue, PiecesText, PiecesMeaning, NumeralText, NumeralValue, NumeralOk, PiecesOk;
    match c
    case Numeric(n) => ParseNumericText(n, s, off, depth);
    case Literal(pieces) => ParseLiteralText(pieces, s, off, depth);
    case _ => ParseWord(c, s, off, depth);
  }

  lemma {:induction false} ParseArrayText(es: Elements, s: seq<byte>, off: nat, depth: nat)
    requires ElementsOk(es) && At(s, off, [LBRACKET] + ElementsText(es) + [RBRACKET])
    requires depth < NESTING_LIMIT && ItemsNest(ElementsMeaning(es), NESTING_LIMIT - depth - 1)
    ensures ParseValue(s, off, depth) == Some((Array(ElementsMeaning(es)), off + |ElementsText(es)| + 2))
    decreases es, 2
  {
    hide ParseValue, At, ParseItems, ElementsText;
    AtBetween(s, off, LBRACKET, ElementsText(es), RBRACKET);
    ParseElements(es, s, off + 1, depth + 1);
    ArrayValue(s, off, depth, ElementsMeaning(es), off + 1 + |ElementsText(es)|);
  }

  lemma {:induction false} ParseObjectText(fs: Fields, s: seq<byte>, off: nat, depth: nat)
    requires FieldsOk(fs) && At(s, off, [LBRACE] + FieldsText(fs) + [RBRACE])
    requires depth < NESTING_LIMIT && MembersNest(FieldsMeaning(fs), NESTING_LIMIT - depth - 1)
    ensures ParseValue(s, off, depth) == Some((Object(FieldsMeaning(fs)), off + |FieldsText(fs)| + 2))
    decreases fs, 2
  {
    hide ParseValue, At, ParseMembers, FieldsText;
    AtBetween(s, off, LBRACE, FieldsText(fs), RBRACE);
    ParseFields(fs, s, off + 1, depth + 1);
    ObjectValue(s, off, depth, FieldsMeaning(fs), off + 1 + |FieldsText(fs)|);
  }

  lemma ParseWord(c: Syntax, s: seq<byte>, off: nat, depth: nat)
    requires (c.NullWord? || c.FalseWord? || c.TrueWord?) && At(s, off, Text(c))
    ensures ParseValue(s, off, depth) == Some((Meaning(c), off + |Text(c)|))
  {
    FirstByte(c, s, off);
    WordsStartWithLetters(s, off);
  }

  lemma ParseNumericText(n: Numeral, s: seq<byte>, off: nat, depth: nat)
    requires Valid(Numeric(n)) && At(s, off, NumeralText(n)) && Delimited(s, off + |NumeralText(n)|)
    ensures ParseValue(s, off, depth) == Some((Meaning(Numeric(n)), off + |NumeralText(n)|))
  {
    hide NumeralText, NumeralValue;
    FirstByte(Numeric(n), s, off);
    Dispatch(s, off, depth);
    NumeralIsRead(s, off, n);
  }

  lemma ParseLiteralText(pieces: seq<Piece>, s: seq<byte>, off: nat, depth: nat)
    requires PiecesOk(pieces) && At(s, off, StringText(pieces))
    ensures ParseValue(s, off, depth) == Some((String(PiecesMeaning(pieces)), off + |StringText(pieces)|))
  {
    ParseStringText(pieces, s, off);
    Dispatch(s, off, depth);
  }

  lemma ParseEmpty(blank: seq<byte>, s: seq<byte>, off: nat, depth: nat, left: byte, right: byte)
    requires Blank(blank) && At(s, off, [left] + blank + [right]) && depth < NESTING_LIMIT
    requires (left == LBRACKET && right == RBRACKET) || (left == LBRACE && right == RBRACE)
    ensures ParseValue(s, off, depth) == Some((if left == LBRACE then Object([]) else Array([]), off + |blank| + 2))
  {
    AtBetween(s, off, left, blank, right);
    SkipBlank(s, off + 1, blank);
    Dispatch(s, off, depth);
  }

  /** A bracket with at least one item behind it. */
  lemma ArrayValue(s: seq<byte>, off: nat, depth: nat, children: seq<Value>, end: nat)
    requires Is(s, off, LBRACKET) && depth < NESTING_LIMIT && !Is(s, Skip(s, off + 1), RBRACKET)
    requires ParseItems(s, off + 1, depth + 1) == Some((children, end))
    ensures ParseValue(s, off, depth) == Some((Array(children), end + 1))
  {
    Dispatch(s, off, depth);
    SkipBeforeItems(s, off + 1, depth + 1);
  }

  lemma ObjectValue(s: seq<byte>, off: nat, depth: nat, children: seq<Member>, end: nat)
    requires Is(s, off, LBRACE) && depth < NESTING_LIMIT && !Is(s, Skip(s, off + 1), RBRACE)
    requires ParseMembers(s, off + 1, depth + 1) == Some((children, end))
    ensures ParseValue(s, off, depth) == Some((Object(children), end + 1))
  {
    Dispatch(s, off, depth);
    SkipBeforeMembers(s, off + 1, depth + 1);
  }

  lemma BlankStartsWith(s: seq<byte>, p: nat, blank: seq<byte>)
    requires At(s, p, blank) && Blank(blank) && p + |blank| < |s|
    requires !IsNumberByte(s[p + |blank|])
    ensures Delimited(s, p)
  {
    if blank != [] {
      AtByte(s, p, blank, 0);
    }
  }

  /** A value between blanks: the blanks are skipped on both sides. */
  lemma {:induction false} ParsePadded(before: seq<byte>, c: Syntax, after: seq<byte>, s: seq<byte>, p: nat, depth: nat)
    requires Blank(before) && Valid(c) && Blank(after) && At(s, p, Padded(before, c, after))
    requires var end := p + |Padded(before, c, after)|; end < |s| && s[end] > 32 && !IsNumberByte(s[end])
    requires depth <= NESTING_LIMIT && NestsWithin(Meaning(c), NESTING_LIMIT - depth)
    ensures !Is(s, Skip(s, p), RBRACKET)
    ensures var r := ParseValue(s, Skip(s, p), depth);
            r.Some? && r.value.0 == Meaning(c) && Skip(s, r.value.1) == p + |Padded(before, c, after)|
    decreases c, 2
  {
    hide ParseValue, At, Text;
    AtAppend(s, p, before, Text(c) + after);
    var at := p + |before|;
    AtAppend(s, at, Text(c), after);
    FirstByte(c, s, at);
    SkipBlank(s, p, before);
    BlankStartsWith(s, at + |Text(c)|, after);
    SkipBlank(s, at + |Text(c)|, after);
    ParseText(c, s, at, depth);
  }

  lemma {:induction false} ParseLastElement(e: Element, s: seq<byte>, p: nat, depth: nat)
    requires ElementOk(e) && At(s, p, ElementText(e)) && Is(s, p + |ElementText(e)|, RBRACKET)
    requires depth <= NESTING_LIMIT && NestsWithin(Meaning(e.item), NESTING_LIMIT - depth)
    ensures ParseItems(s, p, depth) == Some(([Meaning(e.item)], p + |ElementText(e)|))
    ensures !Is(s, Skip(s, p), RBRACKET)
    decreases e, 0
  {
    ParsePadded(e.before, e.item, e.after, s, p, depth);
    LastItem(s, p, depth, Meaning(e.item), ParseValue(s, Skip(s, p), depth).value.1);
  }

  lemma {:induction false} ParseLeadingElement(e: Element, s: seq<byte>, p: nat, depth: nat, rest: seq<Value>,
      next: nat, end: nat)
    requires ElementOk(e) && At(s, p, ElementText(e)) && Is(s, p + |ElementText(e)|, COMMA)
    requires depth <= NESTING_LIMIT && NestsWithin(Meaning(e.item), NESTING_LIMIT - depth)
    requires next == p + |ElementText(e)| + 1 && ParseItems(s, next, depth) == Some((rest, end))
    ensures ParseItems(s, p, depth) == Some(([Meaning(e.item)] + rest, end))
    ensures !Is(s, Skip(s, p), RBRACKET)
    decreases e, 0
  {
    ParsePadded(e.before, e.item, e.after, s, p, depth);
    MoreItems(s, p, depth, Meaning(e.item), ParseValue(s, Skip(s, p), depth).value.1);
  }

  lemma {:induction false} ParseElements(es: Elements, s: seq<byte>, p: nat, depth: nat)
    requires ElementsOk(es) && At(s, p, ElementsText(es)) && Is(s, p + |ElementsText(es)|, RBRACKET)
    requires depth <= NESTING_LIMIT && ItemsNest(ElementsMeaning(es), NESTING_LIMIT - depth)
    ensures ParseItems(s, p, depth) == Some((ElementsMeaning(es), p + |ElementsText(es)|))
    ensures !Is(s, Skip(s, p), RBRACKET)
    decreases es, 1
  {
    match es
    case LastElement(e) =>
      assert ElementOk(e) && ElementsMeaning(es) == [Meaning(e.item)];
      ParseLastElement(e, s, p, depth);
    case MoreElements(e, rest) =>
      assert ElementOk(e) && ElementsOk(rest) && ElementsMeaning(es) == [Meaning(e.item)] + ElementsMeaning(rest);
      ParseMoreElements(e, rest, s, p, depth, p + |ElementText(e)| + 1, p + |ElementsText(es)|);
  }

  lemma {:induction false} ParseMoreElements(e: Element, rest: Elements, s: seq<byte>, p: nat, depth: nat, next: nat,
      end: nat)
    requires ElementOk(e) && ElementsOk(rest) && At(s, p, ElementText(e) + ([COMMA] + ElementsText(rest)))
    requires next == p + |ElementText(e)| + 1 && end == next + |ElementsText(rest)| && Is(s, end, RBRACKET)
    requires depth <= NESTING_LIMIT && ItemsNest([Meaning(e.item)] + ElementsMeaning(rest), NESTING_LIMIT - depth)
    ensures ParseItems(s, p, depth) == Some(([Meaning(e.item)] + ElementsMeaning(rest), end))
    ensures !Is(s, Skip(s, p), RBRACKET)
    decreases MoreElements(e, rest), 0
  {
    AtJoined(s, p, ElementText(e), COMMA, ElementsText(rest));
    ItemsNestCons(Meaning(e.item), ElementsMeaning(rest), NESTING_LIMIT - depth);
    ParseElements(rest, s, next, depth);
    ParseLeadingElement(e, s, p, depth, ElementsMeaning(rest), next, end);
  }

  /** The name of a field: where it ends, and where the text behind its colon starts. */
  lemma ParseName(before: seq<byte>, key: seq<Piece>, blank: seq<byte>, tail: seq<byte>, s: seq<byte>, p: nat,
      gap: nat, end: nat)
    requires Blank(before) && PiecesOk(key) && Blank(blank)
    requires At(s, p, before + (StringText(key) + (blank + ([COLON] + tail))))
    requires gap == p + |before| + |StringText(key)| && end == gap + |blank| + 1 + |tail|
    ensures Is(s, Skip(s, p), QUOTE) && ParseString(s, Skip(s, p)) == Some((PiecesMeaning(key), gap))
    ensures Is(s, Skip(s, gap), COLON) && At(s, Skip(s, gap) + 1, tail) && end == Skip(s, gap) + 1 + |tail|
  {
    hide ParseString, PiecesMeaning, PieceOk, StringText, At;
    NameParts(before, StringText(key), blank, tail, s, p);
    ParseStringText(key, s, p + |before|);
    SkipBlank(s, p, before);
    SkipBlank(s, gap, blank);
  }

  lemma NameParts(before: seq<byte>, name: seq<byte>, gap: seq<byte>, tail: seq<byte>, s: seq<byte>, p: nat)
    requires At(s, p, before + (name + (gap + ([COLON] + tail))))
    ensures At(s, p, before) && At(s, p + |before|, name) && At(s, p + |before| + |name|, gap)
    ensures Is(s, p + |before| + |name| + |gap|, COLON) && At(s, p + |before| + |name| + |gap| + 1, tail)
  {
    AtAppend(s, p, before, name + (gap + ([COLON] + tail)));
    AtAppend(s, p + |before|, name, gap + ([COLON] + tail));
    AtJoined(s, p + |before| + |name|, gap, COLON, tail);
  }

  lemma FieldTextLength(f: Field)
    ensures |FieldText(f)| == |f.before| + |StringText(f.key)| + |f.gap| + 1 + |Padded(f.lead, f.item, f.after)|
  {
  }

  /** A member whose name has been parsed up to `gap`, with its padded value after the colon. */
  lemma {:induction false} ParseFieldValue(f: Field, s: seq<byte>, p: nat, gap: nat, end: nat, depth: nat)
    requires FieldOk(f) && p <= |s| && Skip(s, p) < |s|
    requires ParseString(s, Skip(s, p)) == Some((PiecesMeaning(f.key), gap)) && Is(s, Skip(s, gap), COLON)
    requires At(s, Skip(s, gap) + 1, Padded(f.lead, f.item, f.after))
    requires end == Skip(s, gap) + 1 + |Padded(f.lead, f.item, f.after)| && (Is(s, end, COMMA) || Is(s, end, RBRACE))
    requires depth <= NESTING_LIMIT && NestsWithin(Meaning(f.item), NESTING_LIMIT - depth)
    ensures ParseMember(s, p, depth) == Some((FieldMeaning(f), end))
    decreases f, 0
  {
    hide ParseValue, ParseString, At, Text, PiecesMeaning, PiecesText, Meaning, NestsWithin;
    ParsePadded(f.lead, f.item, f.after, s, Skip(s, gap) + 1, depth);
    MemberParts(s, p, depth, PiecesMeaning(f.key), gap, Meaning(f.item),
                ParseValue(s, Skip(s, Skip(s, gap) + 1), depth).value.1);
  }

  lemma {:induction false} ParseField(f: Field, s: seq<byte>, p: nat, depth: nat)
    requires FieldOk(f) && At(s, p, FieldText(f))
    requires var end := p + |FieldText(f)|; Is(s, end, COMMA) || Is(s, end, RBRACE)
    requires depth <= NESTING_LIMIT && NestsWithin(Meaning(f.item), NESTING_LIMIT - depth)
    ensures ParseMember(s, p, depth) == Some((FieldMeaning(f), p + |FieldText(f)|))
    ensures Is(s, Skip(s, p), QUOTE)
    decreases f, 2
  {
    FieldTextLength(f);
    ParseFieldParts(f, s, p, p + |FieldText(f)|, depth);
  }

  lemma {:induction false} ParseFieldParts(f: Field, s: seq<byte>, p: nat, end: nat, depth: nat)
    requires FieldOk(f) && At(s, p,
      f.before + (StringText(f.key) + (f.gap + ([COLON] + Padded(f.lead, f.item, f.after)))))
    requires end == p + |f.before| + |StringText(f.key)| + |f.gap| + 1 + |Padded(f.lead, f.item, f.after)|
    requires Is(s, end, COMMA) || Is(s, end, RBRACE)
    requires depth <= NESTING_LIMIT && NestsWithin(Meaning(f.item), NESTING_LIMIT - depth)
    ensures ParseMember(s, p, depth) == Some((FieldMeaning(f), end)) && Is(s, Skip(s, p), QUOTE)
    decreases f, 1
  {
    var gap := p + |f.before| + |StringText(f.key)|;
    ParseName(f.before, f.key, f.gap, Padded(f.lead, f.item, f.after), s, p, gap, end);
    ParseFieldValue(f, s, p, gap, end, depth);
  }

  lemma {:induction false} ParseLastField(f: Field, s: seq<byte>, p: nat, depth: nat)
    requires FieldOk(f) && At(s, p, FieldText(f)) && Is(s, p + |FieldText(f)|, RBRACE)
    requires depth <= NESTING_LIMIT && NestsWithin(Meaning(f.item), NESTING_LIMIT - depth)
    ensures ParseMembers(s, p, depth) == Some(([FieldMeaning(f)], p + |FieldText(f)|))
    ensures !Is(s, Skip(s, p), RBRACE)
    decreases f, 3
  {
    hide ParseValue, ParseString, At, FieldText;
    ParseField(f, s, p, depth);
    LastMember(s, p, depth, FieldMeaning(f), p + |FieldText(f)|);
  }

  lemma {:induction false} ParseLeadingField(f: Field, s: seq<byte>, p: nat, depth: nat, rest: seq<Member>, next: nat,
      end: nat)
    requires FieldOk(f) && At(s, p, FieldText(f)) && Is(s, p + |FieldText(f)|, COMMA)
    requires depth <= NESTING_LIMIT && NestsWithin(Meaning(f.item), NESTING_LIMIT - depth)
    requires next == p + |FieldText(f)| + 1 && ParseMembers(s, next, depth) == Some((rest, end))
    ensures ParseMembers(s, p, depth) == Some(([FieldMeaning(f)] + rest, end))
    ensures !Is(s, Skip(s, p), RBRACE)
    decreases f, 3
  {
    ParseField(f, s, p, depth);
    MoreMembers(s, p, depth, FieldMeaning(f), p + |FieldText(f)|);
  }

  lemma {:induction false} ParseFields(fs: Fields, s: seq<byte>, p: nat, depth: nat)
    requires FieldsOk(fs) && At(s, p, FieldsText(fs)) && Is(s, p + |FieldsText(fs)|, RBRACE)
    requires depth <= NESTING_LIMIT && MembersNest(FieldsMeaning(fs), NESTING_LIMIT - depth)
    ensures ParseMembers(s, p, depth) == Some((FieldsMeaning(fs), p + |FieldsText(fs)|))
    ensures !Is(s, Skip(s, p), RBRACE)
    decreases fs, 1
  {
    hide ParseValue, ParseString, At, FieldText, PiecesMeaning, ParseMembers;
    match fs
    case LastField(f) =>
      assert FieldOk(f) && FieldsMeaning(fs) == [FieldMeaning(f)];
      ParseLastField(f, s, p, depth);
    case MoreFields(f, rest) =>
      assert FieldOk(f) && FieldsOk(rest) && FieldsMeaning(fs) == [FieldMeaning(f)] + FieldsMeaning(rest);
      ParseMoreFields(f, rest, s, p, depth, p + |FieldText(f)| + 1, p + |FieldsText(fs)|);
  }

  lemma {:induction false} ParseMoreFields(f: Field, rest: Fields, s: seq<byte>, p: nat, depth: nat, next: nat,
      end: nat)
    requires FieldOk(f) && FieldsOk(rest) && At(s, p, FieldText(f) + ([COMMA] + FieldsText(rest)))
    requires next == p + |FieldText(f)| + 1 && end == next + |FieldsText(rest)| && Is(s, end, RBRACE)
    requires depth <= NESTING_LIMIT && MembersNest([FieldMeaning(f)] + FieldsMeaning(rest), NESTING_LIMIT - depth)
    ensures ParseMembers(s, p, depth) == Some(([FieldMeaning(f)] + FieldsMeaning(rest), end))
    ensures !Is(s, Skip(s, p), RBRACE)
    decreases MoreFields(f, rest), 0
  {
    hide ParseValue, At, FieldText, ParseString;
    AtJoined(s, p, FieldText(f), COMMA, FieldsText(rest));
    MembersNestCons(FieldMeaning(f), FieldsMeaning(rest), NESTING_LIMIT - depth);
    ParseFields(rest, s, next, depth);
    ParseLeadingField(f, s, p, depth, FieldsMeaning(rest), next, end);
  }

  /** A whole JSON text: blanks, a value, blanks. */
  function Document(before: seq<byte>, c: Syntax, after: seq<byte>): seq<byte> {
    Padded(before, c, after)
  }

  /** A document in a buffer, with a byte behind it that no number contains. */
  lemma DocumentAt(before: seq<byte>, c: Syntax, after: seq<byte>, s: seq<byte>, p: nat)
    requires Blank(before) && Valid(c) && Blank(after) && NestsWithin(Meaning(c), NESTING_LIMIT)
    requires At(s, p, Document(before, c, after)) && Delimited(s, p + |Document(before, c, after)|)
    ensures p <= |s| && Skip(s, p) == p + |before|
    ensures ParseValue(s, p + |before|, 0) == Some((Meaning(c), p + |before| + |Text(c)|))
    ensures At(s, p + |before| + |Text(c)|, after) && 32 < s[p + |before|] < 0x80
  {
    hide ParseValue, Text, Meaning, Valid, NestsWithin, At;
    AtAppend(s, p, before, Text(c) + after);
    AtAppend(s, p + |before|, Text(c), after);
    FirstByte(c, s, p + |before|);
    BlankOrDelimited(s, p + |before| + |Text(c)|, after);
    SkipBlank(s, p, before);
    ParseText(c, s, p + |before|, 0);
  }

  lemma BlankOrDelimited(s: seq<byte>, p: nat, blank: seq<byte>)
    requires At(s, p, blank) && Blank(blank) && Delimited(s, p + |blank|)
    ensures Delimited(s, p)
  {
    if blank != [] {
      AtByte(s, p, blank, 0);
    }
  }

  /** A document at the start of a buffer, with a NUL after it. */
  lemma ParseDocument(before: seq<byte>, c: Syntax, after: seq<byte>, s: seq<byte>)
    requires Blank(before) && Valid(c) && Blank(after) && NestsWithin(Meaning(c), NESTING_LIMIT)
    requires At(s, 0, Document(before, c, after)) && Is(s, |Document(before, c, after)|, 0)
    ensures Start(s) == |before|
    ensures ParseValue(s, |before|, 0) == Some((Meaning(c), |before| + |Text(c)|))
  {
    hide ParseValue, Text, Meaning, Valid, NestsWithin, At;
    DocumentAt(before, c, after, s, 0);
    AtAppend(s, 0, before, Text(c) + after);
    NoMark(before, s);
  }

  /** A byte order mark is no JSON text. */
  lemma NoMark(before: seq<byte>, s: seq<byte>)
    requires Blank(before) && At(s, 0, before) && |before| < |s| && s[|before|] < 0xEF
    ensures !At(s, 0, UTF8_BOM)
  {
    if before != [] {
      AtByte(s, 0, before, 0);
    }
    if At(s, 0, UTF8_BOM) {
      AtByte(s, 0, UTF8_BOM, 0);
    }
  }

  lemma CodeTextHasNoNul(c: CodeUnit, spelling: Case)
    ensures NoNul(CodeText(c, spelling))
  {
    hide Hex4;
    CodeTextIsRead(c, spelling);
  }

  lemma PieceTextHasNoNul(piece: Piece)
    requires PieceOk(piece)
    ensures NoNul(PieceText(piece))
  {
    hide CodeText, HighUnit, LowUnit;
    match piece
    case Code(code, spelling) => CodeTextHasNoNul(code, spelling);
    case Pair(point, high, low) =>
      CodeTextHasNoNul(HighUnit(point), high);
      CodeTextHasNoNul(LowUnit(point), low);
    case _ =>
  }

  lemma {:induction false} PiecesTextHasNoNul(ps: seq<Piece>)
    requires PiecesOk(ps)
    ensures NoNul(PiecesText(ps))
  {
    if ps != [] {
      PieceTextHasNoNul(ps[0]);
      PiecesTextHasNoNul(ps[1..]);
    }
  }

  /** No text of the grammar contains a NUL. */
  lemma {:induction false} TextHasNoNul(c: Syntax)
    requires Valid(c)
    ensures NoNul(Text(c))
    decreases c
  {
    hide ElementsText, FieldsText, PiecesText, NumeralText, Lenient, PiecesOk;
    match c
    case Numeric(n) => NumeralBytes(n);
    case Literal(pieces) => PiecesTextHasNoNul(pieces);
    case ArrayOf(elements) => ElementsHaveNoNul(elements);
    case ObjectOf(fields) => FieldsHaveNoNul(fields);
    case _ =>
  }

  lemma {:induction false} ElementsHaveNoNul(es: Elements)
    requires ElementsOk(es)
    ensures NoNul(ElementsText(es))
    decreases es
  {
    match es
    case LastElement(e) => ElementHasNoNul(e);
    case MoreElements(e, rest) =>
      ElementHasNoNul(e);
      ElementsHaveNoNul(rest);
  }

  lemma {:induction false} ElementHasNoNul(e: Element)
    requires ElementOk(e)
    ensures NoNul(ElementText(e))
    decreases e
  {
    TextHasNoNul(e.item);
  }

  lemma {:induction false} FieldsHaveNoNul(fs: Fields)
    requires FieldsOk(fs)
    ensures NoNul(FieldsText(fs))
    decreases fs
  {
    match fs
    case LastField(f) => FieldHasNoNul(f);
    case MoreFields(f, rest) =>
      FieldHasNoNul(f);
      FieldsHaveNoNul(rest);
  }

  lemma {:induction false} FieldHasNoNul(f: Field)
    requires FieldOk(f)
    ensures NoNul(FieldText(f))
    decreases f
  {
    PiecesTextHasNoNul(f.key);
    TextHasNoNul(f.item);
  }

  /** cJSON_Parse accepts every JSON text within the limits and yields the tree it denotes. */
  lemma ParserIsComplete(before: seq<byte>, c: Syntax, after: seq<byte>)
    requires Blank(before) && Valid(c) && Blank(after) && NestsWithin(Meaning(c), NESTING_LIMIT)
    ensures Parse(Document(before, c, after)) == Some(Meaning(c))
  {
    var text := Document(before, c, after);
    TextHasNoNul(c);
    CStringIsIdentity(text);
    ParseDocument(before, c, after, text + [0]);
  }

  /** A byte order mark in front is passed over. */
  lemma MarkIsPassedOver(before: seq<byte>, c: Syntax, after: seq<byte>)
    requires Blank(before) && Valid(c) && Blank(after) && NestsWithin(Meaning(c), NESTING_LIMIT)
    ensures Parse([0xEF, 0xBB, 0xBF] + Document(before, c, after)) == Some(Meaning(c))
  {
    hide ParseValue, Meaning, Valid, NestsWithin, At, Text;
    var mark, text := [0xEF, 0xBB, 0xBF], Document(before, c, after);
    var s := mark + text + [0];
    TextHasNoNul(c);
    TextIsNotEmpty(c);
    CStringIsIdentity(mark + text);
    AtSlice(s, 0, UTF8_BOM);
    AtSlice(s, 3, text);
    assert s[0..3] == UTF8_BOM && s[3..3 + |text|] == text;
    DocumentAt(before, c, after, s, 3);
  }

  lemma TextIsNotEmpty(c: Syntax)
    requires Valid(c)
    ensures Text(c) != []
  {
    hide PiecesText, ElementsText, FieldsText;
  }

  /** A parse that insists on the end of the text accepts a document that is all of it, and none with more behind. */
  lemma StrictParse(before: seq<byte>, c: Syntax, after: seq<byte>, rest: seq<byte>)
    requires Blank(before) && Valid(c) && Blank(after) && NestsWithin(Meaning(c), NESTING_LIMIT)
    ensures ParseBuffer(Document(before, c, after) + [0], true) == Some(Meaning(c))
    ensures rest != [] && rest[0] > 32 && !IsNumberByte(rest[0]) ==>
      ParseBuffer(Document(before, c, after) + rest, true) == None
    ensures rest != [] && rest[0] > 32 && !IsNumberByte(rest[0]) ==>
      ParseBuffer(Document(before, c, after) + rest, false) == Some(Meaning(c))
  {
    hide ParseValue, Meaning, Valid, NestsWithin, At, Text;
    var text := Document(before, c, after);
    StartsAt(before, c, after, [0]);
    SkipToNul(text + [0], |before| + |Text(c)|, after);
    if rest != [] && rest[0] > 32 && !IsNumberByte(rest[0]) {
      StartsAt(before, c, after, rest);
      SkipBlank(text + rest, |before| + |Text(c)|, after);
    }
  }

  lemma StartsAt(before: seq<byte>, c: Syntax, after: seq<byte>, rest: seq<byte>)
    requires Blank(before) && Valid(c) && Blank(after) && NestsWithin(Meaning(c), NESTING_LIMIT)
    requires rest != [] && !IsNumberByte(rest[0])
    ensures var s := Document(before, c, after) + rest; var e := |before| + |Text(c)|;
            Start(s) == |before| && ParseValue(s, |before|, 0) == Some((Meaning(c), e)) && At(s, e, after)
            && e + |after| < |s| && s[e + |after|] == rest[0]
  {
    hide ParseValue, Meaning, Valid, NestsWithin, At, Text;
    var text := Document(before, c, after);
    AtSlice(text + rest, 0, text);
    assert (text + rest)[0..|text|] == text;
    DocumentAt(before, c, after, text + rest, 0);
    AtAppend(text + rest, 0, before, Text(c) + after);
    NoMark(before, text + rest);
  }

  /** Skipping stops at the last byte, even when that counts as a blank. */
  lemma {:induction false} SkipToNul(s: seq<byte>, p: nat, blank: seq<byte>)
    requires At(s, p, blank) && Blank(blank) && p + |blank| + 1 == |s|
    ensures Skip(s, p) == p + |blank|
    decreases |blank|
  {
    if blank != [] {
      AtByte(s, p, blank, 0);
      Cons(blank);
      AtAppend(s, p, [blank[0]], blank[1..]);
      SkipToNul(s, p + 1, blank[1..]);
    }
  }
}
