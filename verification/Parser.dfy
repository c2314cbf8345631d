/** The recursive-descent parser over a mutable parse buffer, building trees of nodes. */
module Parser {
  import opened Bytes
  import opened Unicode
  import opened JsonNumber
  import opened JsonString
  import opened Json
  import opened JsonParse
  import opened Nodes

  /** The mask of a continuation byte keeps six bits and marks them. */
  lemma MaskByte(b: bv8)
    ensures ((b | 0x80) & 0xBF) as int == 0x80 + (b as int) % 0x40
  {
  }

  /** The first-byte marks meet no bit of what is left of the code point, so or-ing them adds them. */
  lemma MarkByte(b: bv8)
    ensures b < 0x20 ==> (b | 0xC0) as int == 0xC0 + b as int
    ensures b < 0x10 ==> (b | 0xE0) as int == 0xE0 + b as int
    ensures b < 0x08 ==> (b | 0xF0) as int == 0xF0 + b as int
    ensures b < 0x80 ==> (b & 0x7F) == b
  {
  }

  class ParseBuffer {
    const content: seq<byte>
    var offset: nat
    var depth: nat

    constructor (text: seq<byte>)
      ensures content == text && offset == 0 && depth == 0
    {
      content := text;
      offset, depth := 0, 0;
    }

    ghost predicate InBounds()
      reads this
    {
      offset <= |content| && depth <= NESTING_LIMIT
    }

    method SkipWhitespace()
      requires InBounds()
      modifies this`offset
      ensures offset == Skip(content, old(offset)) && InBounds()
    {
      if offset >= |content| {
        return;
      }
      while offset < |content| && content[offset] <= 32
        invariant old(offset) <= offset <= |content|
        invariant Skip(content, old(offset)) == if offset == |content| then |content| - 1 else Skip(content, offset)
      {
        offset := offset + 1;
      }
      if offset == |content| {
        offset := offset - 1;
      }
    }

    /** Copies the bytes of a number, at most 63 of them, into a buffer of 64. */
    method CopyNumber() returns (text: seq<byte>)
      requires InBounds()
      ensures text == content[offset..offset + NumberRun(content, offset, 0)]
    {
      var numberText := new byte[NUMBER_TEXT_MAX + 1];
      var i := 0;
      while i < NUMBER_TEXT_MAX && offset + i < |content| && IsNumberByte(content[offset + i])
        invariant offset + i <= |content| && i <= NUMBER_TEXT_MAX
        invariant NumberRun(content, offset, i) == NumberRun(content, offset, 0)
        invariant numberText[..i] == content[offset..offset + i]
      {
        numberText[i] := content[offset + i];
        i := i + 1;
      }
      numberText[i] := 0;
      text := numberText[..i];
    }

    /** What strtod makes of the number at the offset. */
    method ConvertNumber() returns (conversion: Conversion)
      requires InBounds()
      ensures JsonNumber.ParseNumber(content, offset) == NumberAt(offset, conversion)
    {
      var text := CopyNumber();
      ParseNumberByStrtod(content, offset, text);
      conversion := Strtod(text);
    }

    method ParseNumber(item: Node) returns (ok: bool)
      requires InBounds() && item.Blank()
      modifies this`offset, item`kind, item`valueint, item`valuedouble, item`model
      ensures InBounds()
      ensures var r := JsonNumber.ParseNumber(content, old(offset));
              ok == r.Some? && (ok ==> item.Valid() && item.model == Number(r.value.0) && offset == r.value.1)
    {
      var conversion := ConvertNumber();
      if conversion.used == 0 {
        return false;
      }
      item.SetNumber(conversion.number);
      offset := offset + conversion.used;
      return true;
    }

    /** The first pass: the closing quote, and how many bytes escapes save at least. */
    method MeasureString() returns (end: nat, skipped: nat, ok: bool)
      requires offset < |content|
      ensures ok == ScanEnd(content, offset + 1).Some?
      ensures ok ==> ScanEnd(content, offset + 1) == Some(end)
      ensures ok ==> end - offset - skipped == Units(content, offset + 1, end) + 1
    {
      ghost var start := offset + 1;
      ghost var found := ScanEnd(content, start);
      end, skipped := offset + 1, 0;
      while end < |content| && content[end] != QUOTE
        invariant start <= end <= |content|
        invariant ScanEnd(content, end) == found
        invariant found.Some? ==>
          skipped + Units(content, start, found.value) == end - start + Units(content, end, found.value)
      {
        if content[end] == BACKSLASH {
          if end + 1 >= |content| {
            return end, skipped, false;
          }
          skipped := skipped + 1;
          end := end + 1;
        }
        end := end + 1;
      }
      ok := end < |content|;
    }

    /** The second pass: writes the unescaped bytes and a NUL into a buffer of the measured size. */
    method UnescapeString(end: nat, output: array<byte>) returns (input: nat, length: nat, ok: bool)
      requires offset < |content| && ScanEnd(content, offset + 1) == Some(end)
      requires output.Length == Units(content, offset + 1, end) + 2
      modifies output
      ensures ok == Unescape(content, offset + 1, end).Some? && offset < input <= end + 1
      ensures ok ==> length < output.Length && output[length] == 0
                     && Unescape(content, offset + 1, end) == Some(output[..length])
    {
      ghost var goal := Unescape(content, offset + 1, end);
      ghost var total := Units(content, offset + 1, end);
      ghost var boundary: nat := offset + 1;
      input, length, ok := offset + 1, 0, true;
      PrependNothing(goal);
      while ok && input < end
        invariant offset < input <= end + 1 && length <= total
        invariant ok ==> HasRoom(content, input, boundary, end, length, total)
        invariant if ok then goal == Prepend(output[..length], Unescape(content, input, end)) else goal.None?
        decreases end + 1 - input, ok
      {
        ok, input, length, boundary := UnescapeNext(input, end, output, length, boundary, total, goal);
      }
      if ok {
        assert output[..length] + [] == output[..length];
        output[length] := 0;
      }
    }

    /** One turn of the loop. */
    method UnescapeNext(input: nat, end: nat, output: array<byte>, length: nat, ghost boundary: nat, ghost total: nat,
                        ghost goal: Option<seq<byte>>)
      returns (ok: bool, input': nat, length': nat, ghost boundary': nat)
      requires input < end < |content| && HasRoom(content, input, boundary, end, length, total)
      requires output.Length == total + 2 && length <= total
      requires goal == Prepend(output[..length], Unescape(content, input, end))
      modifies output
      ensures input <= input' <= end + 1 && length' <= total && (ok ==> input < input')
      ensures ok ==> HasRoom(content, input', boundary', end, length', total)
      ensures if ok then goal == Prepend(output[..length'], Unescape(content, input', end)) else goal.None?
    {
      ghost var written := output[..length];
      var used, after := UnescapeOne(input, end, output, length, boundary, total);
      if used == 0 {
        return false, input, length, boundary;
      }
      boundary' := StepKeepsRoom(content, input, boundary, end, length, total);
      TakeDrop(output[..after], length);
      assert output[..after] == written + output[length..after];
      UnescapedMore(goal, input, end, written, output[length..after], output[..after]);
      ok, input', length' := true, input + used, after;
    }

    /** The bytes of one step, behind those already written. */
    lemma UnescapedMore(goal: Option<seq<byte>>, input: nat, end: nat, written: seq<byte>, got: seq<byte>,
        all: seq<byte>)
      requires input < end < |content| && all == written + got
      requires goal == Prepend(written, Unescape(content, input, end))
      requires UnescapeStep(content, input, end).Some? && UnescapeStep(content, input, end).value.1 == got
      ensures var step := UnescapeStep(content, input, end).value;
              goal == Prepend(all, Unescape(content, input + step.0, end))
    {
      var step := UnescapeStep(content, input, end).value;
      PrependTwice(written, got, Unescape(content, input + step.0, end));
    }

    /** One byte or one escape of the second pass; 0 means failure. */
    method UnescapeOne(input: nat, end: nat, output: array<byte>, length: nat, ghost boundary: nat, ghost total: nat)
      returns (used: nat, length': nat)
      requires input < end < |content| && HasRoom(content, input, boundary, end, length, total)
      requires output.Length == total + 2
      modifies output
      ensures var step := UnescapeStep(content, input, end);
              if step.None? then used == 0
              else used == step.value.0 && length' == length + |step.value.1| <= total
                   && output[length..length'] == step.value.1
      ensures length <= output.Length && output[..length] == old(output[..length])
    {
      length' := length;
      if UnescapeStep(content, input, end).Some? {
        ghost var _ := StepKeepsRoom(content, input, boundary, end, length, total);
      }
      if content[input] != BACKSLASH {
        output[length] := content[input];
        return 1, length + 1;
      }
      var letter := content[input + 1];
      if letter == LOWER_U {
        used, length' := Utf16LiteralToUtf8(content, input, end, output, length);
        return used, length';
      }
      var meaning: byte;
      if letter == 98 {
        meaning := 8;
      } else if letter == 102 {
        meaning := 12;
      } else if letter == 110 {
        meaning := LF;
      } else if letter == 114 {
        meaning := CR;
      } else if letter == 116 {
        meaning := TAB;
      } else if letter == QUOTE || letter == BACKSLASH || letter == SLASH {
        meaning := letter;
      } else {
        return 0, length;
      }
      output[length] := meaning;
      return 2, length + 1;
    }

    method ParseString(item: Node) returns (ok: bool)
      requires InBounds() && offset < |content| && item.Blank()
      modifies this`offset, item`kind, item`valuestring, item`model
      ensures InBounds()
      ensures var r := JsonString.ParseString(content, old(offset));
              ok == r.Some? && (ok ==> item.Valid() && item.valuestring == r.value.0 && item.model == String(r.value.0)
                                       && offset == r.value.1)
    {
      if content[offset] != QUOTE {
        offset := offset + 1;
        return false;
      }
      var end, skipped, measured := MeasureString();
      if !measured {
        offset := offset + 1;
        return false;
      }
      var allocation := end - offset - skipped;
      var output := new byte[allocation + 1];
      var input, length, unescaped := UnescapeString(end, output);
      if !unescaped {
        offset := input;
        return false;
      }
      item.SetString(CString(output[..]));
      CStringEnds(output[..], length);
      offset := end + 1;
      return true;
    }

    /** Fills a blank node with the value at the offset; the node's own links and key stay. */
    method ParseValue(item: Node) returns (ok: bool)
      requires InBounds() && item.Blank()
      modifies this`offset, this`depth, item`child, item`kind, item`valuestring, item`valueint, item`valuedouble
      modifies item`kids, item`repr, item`model
      ensures InBounds()
      ensures var r := JsonParse.ParseValue(content, old(offset), old(depth));
              ok == r.Some?
                  && (ok ==> item.Valid() && item.model == r.value.0 && offset == r.value.1 && depth == old(depth))
      ensures ok && item.kind == ArrayKind ==> Keyless(item.kids)
      ensures ok ==> fresh(item.repr - {item})
      decreases |content| - offset, 4
    {
      hide Forest, Chained, HasElements, HasMembers;
      ghost var off := offset;
      if At(content, offset, NULL_TEXT) {
        item.SetWord(NullKind);
        offset := offset + 4;
        return true;
      }
      if At(content, offset, FALSE_TEXT) {
        item.SetWord(FalseKind);
        offset := offset + 5;
        return true;
      }
      if At(content, offset, TRUE_TEXT) {
        item.SetWord(TrueKind);
        offset := offset + 4;
        return true;
      }
      assert JsonParse.ParseValue(content, off, depth) == JsonParse.ParseQuoted(content, off, depth);
      if offset < |content| && content[offset] == QUOTE {
        ok := ParseString(item);
        return ok;
      }
      assert JsonParse.ParseQuoted(content, off, depth) == JsonParse.ParseNumeral(content, off, depth);
      if offset < |content| && (content[offset] == MINUS || IsDigit(content[offset])) {
        ok := ParseNumber(item);
        return ok;
      }
      assert JsonParse.ParseNumeral(content, off, depth) == JsonParse.ParseArray(content, off, depth);
      if offset < |content| && content[offset] == LBRACKET {
        ok := ParseArray(item);
        return ok;
      }
      assert JsonParse.ParseArray(content, off, depth) == JsonParse.ParseObject(content, off, depth);
      if offset < |content| && content[offset] == LBRACE {
        ok := ParseObject(item);
        return ok;
      }
      return false;
    }

    /** Steps over an opening byte and the blanks behind it. */
    method Enter()
      requires InBounds() && offset < |content| && depth < NESTING_LIMIT
      modifies this`offset, this`depth
      ensures InBounds() && depth == old(depth) + 1 && offset == Skip(content, old(offset) + 1)
    {
      depth := depth + 1;
      offset := offset + 1;
      SkipWhitespace();
    }

    /** Steps over a closing byte. */
    method Leave()
      requires InBounds() && offset < |content| && depth > 0
      modifies this`offset, this`depth
      ensures InBounds() && depth == old(depth) - 1 && offset == old(offset) + 1
    {
      depth := depth - 1;
      offset := offset + 1;
    }

    method ParseArray(item: Node) returns (ok: bool)
      requires InBounds() && item.Blank() && Is(content, offset, LBRACKET)
      modifies this`offset, this`depth, item`child, item`kind, item`kids, item`repr, item`model
      ensures InBounds()
      ensures var r := JsonParse.ParseArray(content, old(offset), old(depth));
              ok == r.Some?
                  && (ok ==> item.Valid() && item.model == r.value.0 && offset == r.value.1 && depth == old(depth))
      ensures ok ==> Keyless(item.kids)
      ensures ok ==> fresh(item.repr - {item})
      decreases |content| - offset, 3
    {
      var head, last;
      ghost var nodes, region, values;
      ok, head, last, nodes, region, values := ParseArrayBody();
      if ok {
        item.Adopt(ArrayKind, head, last, nodes, region, Array(values));
      }
    }

    /** From the bracket to the bracket: the chain of the elements. */
    method ParseArrayBody()
      returns (ok: bool, head: Node?, last: Node?, ghost nodes: seq<Node>, ghost region: set<Node>,
          ghost values: seq<Value>)
      requires InBounds() && Is(content, offset, LBRACKET)
      modifies this`offset, this`depth
      ensures InBounds()
      ensures var r := JsonParse.ParseArray(content, old(offset), old(depth));
              ok == r.Some? && (ok ==> r.value == (Array(values), offset) && depth == old(depth))
      ensures ok ==> IsChain(head, last, nodes, region) && HasElements(nodes, values) && fresh(region)
      decreases |content| - offset, 2
    {
      hide Forest, Chained, HasElements, ParseItems;
      ghost var start, outer := offset, depth;
      head, last, nodes, region, values := null, null, [], {}, [];
      if depth >= NESTING_LIMIT {
        return false, head, last, nodes, region, values;
      }
      Enter();
      ghost var first := offset;
      ok, head, last, nodes, region, values := ParseArrayInside();
      ArrayByParts(content, start, outer, first, ok, values, offset);
      if ok {
        Leave();
      }
    }

    /** From the first byte behind the blanks to the closing byte. */
    method ParseArrayInside()
      returns (ok: bool, head: Node?, last: Node?, ghost nodes: seq<Node>, ghost region: set<Node>,
          ghost values: seq<Value>)
      requires InBounds() && offset > 0
      modifies this`offset, this`depth
      ensures InBounds() && (ok ==> depth == old(depth) && offset < |content|)
      ensures var r := ParseItems(content, old(offset), old(depth));
              if Is(content, old(offset), RBRACKET) then ok && values == [] && offset == old(offset)
              else ok == r.Some? && (ok ==> r.value == (values, offset))
      ensures ok ==> IsChain(head, last, nodes, region) && HasElements(nodes, values) && fresh(region)
      decreases |content| + 1 - offset, 1, 0
    {
      ok, head, last, nodes, region, values := true, null, null, [], {}, [];
      if offset < |content| && content[offset] == RBRACKET {
        return;
      }
      if offset >= |content| {
        NothingAtTheEnd(content, depth);
        offset := offset - 1;
        return false, head, last, nodes, region, values;
      }
      offset := offset - 1;
      ok, head, last, nodes, region, values := ParseElements();
    }

    /** The loop over the elements; the offset stands just before the first one. */
    method ParseElements()
      returns (ok: bool, head: Node?, last: Node?, ghost nodes: seq<Node>, ghost region: set<Node>,
          ghost values: seq<Value>)
      requires InBounds() && offset < |content|
      modifies this`offset, this`depth
      ensures InBounds()
      ensures var r := ParseItems(content, old(offset) + 1, old(depth));
              ok == r.Some? && (ok ==> r.value == (values, offset) && offset < |content| && depth == old(depth))
      ensures ok ==> IsChain(head, last, nodes, region) && HasElements(nodes, values) && fresh(region)
      decreases |content| - offset, 0, 5
    {
      ghost var goal := ParseItems(content, offset + 1, depth);
      head, last, nodes, region, values := null, null, [], {}, [];
      var more := true;
      JoinNothing(goal, None);
      while more
        invariant InBounds() && depth == old(depth) && offset >= old(offset)
        invariant more ==> offset < |content|
        invariant IsChain(head, last, nodes, region) && HasElements(nodes, values) && fresh(region)
        invariant goal
                  == if more then JoinItems(values, ParseItems(content, offset + 1, depth))
                     else if Is(content, offset, RBRACKET) then Some((values, offset)) else None
        decreases |content| - offset, more
      {
        ok, more, head, last, nodes, region, values := TurnOfElements(head, last, nodes, region, values, goal);
        if !ok {
          return false, head, last, nodes, region, values;
        }
      }
      ok := offset < |content| && content[offset] == RBRACKET;
    }

    /** One turn of the loop: whether another one follows, or the list is complete or broken. */
    method TurnOfElements(head: Node?, last: Node?, ghost nodes: seq<Node>, ghost region: set<Node>,
        ghost values: seq<Value>,
        ghost goal: Option<(seq<Value>, nat)>)
      returns (ok: bool, more: bool, head': Node?, last': Node?, ghost nodes': seq<Node>, ghost region': set<Node>,
        ghost values': seq<Value>)
      requires InBounds() && offset < |content|
      requires IsChain(head, last, nodes, region) && HasElements(nodes, values)
      requires goal == JoinItems(values, ParseItems(content, offset + 1, depth))
      modifies this`offset, this`depth, nodes`next
      ensures InBounds()
      ensures !ok ==> goal.None?
      ensures ok ==> depth == old(depth) && offset > old(offset) && (more ==> offset < |content|)
      ensures ok ==> goal == if more then JoinItems(values', ParseItems(content, offset + 1, depth))
                             else if Is(content, offset, RBRACKET) then Some((values', offset)) else None
      ensures ok ==> IsChain(head', last', nodes', region') && HasElements(nodes', values')
      ensures ok ==> region <= region' && fresh(region' - region)
      decreases |content| - offset, 0, 4
    {
      hide Forest, Chained, HasElements, ParseItems;
      ghost var p := offset + 1;
      more := false;
      ok, head', last', nodes', region', values' := NextElement(head, last, nodes, region, values);
      if !ok {
        ItemsFail(content, p, old(depth));
        return false, more, head', last', nodes', region', values';
      }
      ghost var item := JsonParse.ParseValue(content, Skip(content, p), depth).value;
      ItemsStep(content, p, depth, item.0, item.1, values);
      more := offset < |content| && content[offset] == COMMA;
    }

    /** A new node at the end of the chain, filled with the next value. */
    method NextElement(head: Node?, last: Node?, ghost nodes: seq<Node>, ghost region: set<Node>,
        ghost values: seq<Value>)
      returns (ok: bool, head': Node?, last': Node?, ghost nodes': seq<Node>, ghost region': set<Node>,
          ghost values': seq<Value>)
      requires InBounds() && offset < |content|
      requires IsChain(head, last, nodes, region) && HasElements(nodes, values)
      modifies this`offset, this`depth, nodes`next
      ensures InBounds()
      ensures var r := JsonParse.ParseValue(content, Skip(content, old(offset) + 1), old(depth));
              ok == r.Some? && (ok ==> values' == values + [r.value.0] && offset == Skip(content, r.value.1)
                                       && offset > old(offset) && depth == old(depth))
      ensures ok ==> IsChain(head', last', nodes', region') && HasElements(nodes', values')
      ensures ok ==> region <= region' && fresh(region' - region)
      decreases |content| - offset, 0, 3
    {
      var item;
      item, head' := AppendBlank(head, last, nodes, region);
      last' := item;
      ok := FillElement(item, head', nodes, region, values);
      nodes', region', values' := nodes + [item], region + item.repr, values + [item.model];
    }

    /** Parses the next value into the blank node at the end of a chain. */
    method FillElement(item: Node, head: Node?, ghost nodes: seq<Node>, ghost region: set<Node>,
        ghost values: seq<Value>)
      returns (ok: bool)
      requires InBounds() && offset < |content| && item.Blank() && item.key == None && item !in region
      requires Chained(head, nodes + [item]) && Forest(nodes, region) && HasElements(nodes, values)
      modifies this`offset, this`depth, item`child, item`kind, item`valuestring, item`valueint, item`valuedouble
      modifies item`kids, item`repr, item`model
      ensures InBounds()
      ensures var r := JsonParse.ParseValue(content, Skip(content, old(offset) + 1), old(depth));
              ok == r.Some? && (ok ==> item.model == r.value.0 && offset == Skip(content, r.value.1)
                                       && offset > old(offset) && depth == old(depth))
      ensures ok ==> IsChain(head, item, nodes + [item], region + item.repr)
      ensures ok ==> HasElements(nodes + [item], values + [item.model])
      ensures ok ==> fresh(item.repr - {item})
      decreases |content| - offset, 0, 1
    {
      hide JsonParse.ParseValue;
      ok := ParseElement(item);
      if ok {
        ChainGrows(head, nodes, region, item);
        ElementsGrow(nodes, values, item);
      }
    }

    /** One element into a blank node, with the blanks around it. */
    method ParseElement(item: Node) returns (ok: bool)
      requires InBounds() && offset < |content| && item.Blank()
      modifies this`offset, this`depth, item`child, item`kind, item`valuestring, item`valueint, item`valuedouble
      modifies item`kids, item`repr, item`model
      ensures InBounds()
      ensures var r := JsonParse.ParseValue(content, Skip(content, old(offset) + 1), old(depth));
              ok == r.Some? && (ok ==> item.Valid() && item.model == r.value.0 && offset == Skip(content, r.value.1)
                                       && offset > old(offset) && depth == old(depth))
      ensures ok ==> fresh(item.repr - {item})
      decreases |content| - offset, 0, 0
    {
      hide Forest, Chained, HasMembers, JsonParse.ParseValue;
      offset := offset + 1;
      SkipWhitespace();
      ok := ParseValue(item);
      if ok {
        SkipWhitespace();
      }
    }

    method ParseObject(item: Node) returns (ok: bool)
      requires InBounds() && item.Blank() && Is(content, offset, LBRACE)
      modifies this`offset, this`depth, item`child, item`kind, item`kids, item`repr, item`model
      ensures InBounds()
      ensures var r := JsonParse.ParseObject(content, old(offset), old(depth));
              ok == r.Some?
                  && (ok ==> item.Valid() && item.model == r.value.0 && offset == r.value.1 && depth == old(depth))
      ensures ok ==> item.kind == ObjectKind
      ensures ok ==> fresh(item.repr - {item})
      decreases |content| - offset, 3
    {
      var head, last;
      ghost var nodes, region, members;
      ok, head, last, nodes, region, members := ParseObjectBody();
      if ok {
        item.Adopt(ObjectKind, head, last, nodes, region, Object(members));
      }
    }

    /** From the brace to the brace: the chain of the members. */
    method ParseObjectBody()
      returns (ok: bool, head: Node?, last: Node?, ghost nodes: seq<Node>, ghost region: set<Node>,
          ghost members: seq<Member>)
      requires InBounds() && Is(content, offset, LBRACE)
      modifies this`offset, this`depth
      ensures InBounds()
      ensures var r := JsonParse.ParseObject(content, old(offset), old(depth));
              ok == r.Some? && (ok ==> r.value == (Object(members), offset) && depth == old(depth))
      ensures ok ==> IsChain(head, last, nodes, region) && HasMembers(nodes, members) && fresh(region)
      decreases |content| - offset, 2
    {
      hide Forest, Chained, HasMembers, ParseMembers;
      ghost var start, outer := offset, depth;
      head, last, nodes, region, members := null, null, [], {}, [];
      if depth >= NESTING_LIMIT {
        return false, head, last, nodes, region, members;
      }
      Enter();
      ghost var first := offset;
      ok, head, last, nodes, region, members := ParseObjectInside();
      ObjectByParts(content, start, outer, first, ok, members, offset);
      if ok {
        Leave();
      }
    }

    /** From the first byte behind the blanks to the closing byte. */
    method ParseObjectInside()
      returns (ok: bool, head: Node?, last: Node?, ghost nodes: seq<Node>, ghost region: set<Node>,
          ghost members: seq<Member>)
      requires InBounds() && offset > 0
      modifies this`offset, this`depth
      ensures InBounds() && (ok ==> depth == old(depth) && offset < |content|)
      ensures var r := ParseMembers(content, old(offset), old(depth));
              if Is(content, old(offset), RBRACE) then ok && members == [] && offset == old(offset)
              else ok == r.Some? && (ok ==> r.value == (members, offset))
      ensures ok ==> IsChain(head, last, nodes, region) && HasMembers(nodes, members) && fresh(region)
      decreases |content| + 1 - offset, 1, 0
    {
      ok, head, last, nodes, region, members := true, null, null, [], {}, [];
      if offset < |content| && content[offset] == RBRACE {
        return;
      }
      if offset >= |content| {
        NothingAtTheEnd(content, depth);
        offset := offset - 1;
        return false, head, last, nodes, region, members;
      }
      offset := offset - 1;
      ok, head, last, nodes, region, members := ParseFields();
    }

    /** The loop over the members; the offset stands just before the first one. */
    method ParseFields()
      returns (ok: bool, head: Node?, last: Node?, ghost nodes: seq<Node>, ghost region: set<Node>,
          ghost members: seq<Member>)
      requires InBounds() && offset < |content|
      modifies this`offset, this`depth
      ensures InBounds()
      ensures var r := ParseMembers(content, old(offset) + 1, old(depth));
              ok == r.Some? && (ok ==> r.value == (members, offset) && offset < |content| && depth == old(depth))
      ensures ok ==> IsChain(head, last, nodes, region) && HasMembers(nodes, members) && fresh(region)
      decreases |content| - offset, 0, 5
    {
      ghost var goal := ParseMembers(content, offset + 1, depth);
      head, last, nodes, region, members := null, null, [], {}, [];
      var more := true;
      JoinNothing(None, goal);
      while more
        invariant InBounds() && depth == old(depth) && offset >= old(offset)
        invariant more ==> offset < |content|
        invariant IsChain(head, last, nodes, region) && HasMembers(nodes, members) && fresh(region)
        invariant goal
                  == if more then JoinMembers(members, ParseMembers(content, offset + 1, depth))
                     else if Is(content, offset, RBRACE) then Some((members, offset)) else None
        decreases |content| - offset, more
      {
        ok, more, head, last, nodes, region, members := TurnOfFields(head, last, nodes, region, members, goal);
        if !ok {
          return false, head, last, nodes, region, members;
        }
      }
      ok := offset < |content| && content[offset] == RBRACE;
    }

    /** One turn of the loop: whether another one follows, or the list is complete or broken. */
    method TurnOfFields(head: Node?, last: Node?, ghost nodes: seq<Node>, ghost region: set<Node>,
        ghost members: seq<Member>,
        ghost goal: Option<(seq<Member>, nat)>)
      returns (ok: bool, more: bool, head': Node?, last': Node?, ghost nodes': seq<Node>, ghost region': set<Node>,
        ghost members': seq<Member>)
      requires InBounds() && offset < |content|
      requires IsChain(head, last, nodes, region) && HasMembers(nodes, members)
      requires goal == JoinMembers(members, ParseMembers(content, offset + 1, depth))
      modifies this`offset, this`depth, nodes`next
      ensures InBounds()
      ensures !ok ==> goal.None?
      ensures ok ==> depth == old(depth) && offset > old(offset) && (more ==> offset < |content|)
      ensures ok ==> goal == if more then JoinMembers(members', ParseMembers(content, offset + 1, depth))
                             else if Is(content, offset, RBRACE) then Some((members', offset)) else None
      ensures ok ==> IsChain(head', last', nodes', region') && HasMembers(nodes', members')
      ensures ok ==> region <= region' && fresh(region' - region)
      decreases |content| - offset, 0, 4
    {
      hide Forest, Chained, HasMembers, ParseMembers;
      ghost var p := offset + 1;
      more := false;
      ok, head', last', nodes', region', members' := NextField(head, last, nodes, region, members);
      if !ok {
        MembersFail(content, p, old(depth));
        return false, more, head', last', nodes', region', members';
      }
      MembersStep(content, p, depth, ParseMember(content, p, depth).value.0, offset, members);
      more := offset < |content| && content[offset] == COMMA;
    }

    /** A new node at the end of the chain, filled with the next member. */
    method NextField(head: Node?, last: Node?, ghost nodes: seq<Node>, ghost region: set<Node>,
        ghost members: seq<Member>)
      returns (ok: bool, head': Node?, last': Node?, ghost nodes': seq<Node>, ghost region': set<Node>,
          ghost members': seq<Member>)
      requires InBounds() && offset < |content|
      requires IsChain(head, last, nodes, region) && HasMembers(nodes, members)
      modifies this`offset, this`depth, nodes`next
      ensures InBounds()
      ensures var r := ParseMember(content, old(offset) + 1, old(depth));
              ok == r.Some? && (ok ==> members' == members + [r.value.0] && offset == r.value.1
                                       && offset > old(offset) && depth == old(depth))
      ensures ok ==> IsChain(head', last', nodes', region') && HasMembers(nodes', members')
      ensures ok ==> region <= region' && fresh(region' - region)
      decreases |content| - offset, 0, 3
    {
      var item;
      item, head' := AppendBlank(head, last, nodes, region);
      last' := item;
      ok := FillField(item, head', nodes, region, members);
      nodes', region', members' := nodes, region, members;
      if ok {
        nodes', region' := nodes + [item], region + item.repr;
        members' := members + [Member(item.key.value, item.model)];
      }
    }

    /** Parses the next member into the blank node at the end of a chain. */
    method FillField(item: Node, head: Node?, ghost nodes: seq<Node>, ghost region: set<Node>,
        ghost members: seq<Member>)
      returns (ok: bool)
      requires InBounds() && offset < |content| && item.Blank() && item !in region
      requires Chained(head, nodes + [item]) && Forest(nodes, region) && HasMembers(nodes, members)
      modifies this`offset, this`depth, item`child, item`kind, item`valuestring, item`valueint, item`valuedouble
      modifies item`kids, item`repr, item`model, item`key
      ensures InBounds()
      ensures var r := ParseMember(content, old(offset) + 1, old(depth));
              ok == r.Some? && (ok ==> item.key == Some(r.value.0.key) && item.model == r.value.0.value
                                       && offset == r.value.1 && offset > old(offset) && depth == old(depth))
      ensures ok ==> IsChain(head, item, nodes + [item], region + item.repr)
      ensures ok ==> HasMembers(nodes + [item], members + [Member(item.key.value, item.model)])
      ensures ok ==> fresh(item.repr - {item})
      decreases |content| - offset, 0, 2
    {
      hide ParseMember;
      ok := ParseField(item);
      if ok {
        ChainGrows(head, nodes, region, item);
        MembersGrow(nodes, members, item);
      }
    }

    /** One member into a blank node: its name becomes the key, its value fills the node. */
    method ParseField(item: Node) returns (ok: bool)
      requires InBounds() && offset < |content| && item.Blank()
      modifies this`offset, this`depth, item`child, item`kind, item`valuestring, item`valueint, item`valuedouble
      modifies item`kids, item`repr, item`model, item`key
      ensures InBounds()
      ensures var r := ParseMember(content, old(offset) + 1, old(depth));
              ok == r.Some? && (ok ==> item.key == Some(r.value.0.key) && NoNul(r.value.0.key) && item.Valid()
                                       && item.model == r.value.0.value && offset == r.value.1 && depth == old(depth))
      ensures ok ==> fresh(item.repr - {item})
      decreases |content| - offset, 0, 1
    {
      hide Forest, Chained, HasMembers, JsonParse.ParseValue;
      ghost var gap;
      ok, gap := ParseKey(item);
      if !ok || offset >= |content| || content[offset] != COLON {
        return false;
      }
      ok := ParseElement(item);
    }

    /** The name of a member into the key of a blank node, up to the blanks after it. */
    method ParseKey(item: Node) returns (ok: bool, ghost gap: nat)
      requires InBounds() && offset < |content| && item.Blank()
      modifies this`offset, item`kind, item`valuestring, item`model, item`key
      ensures InBounds() && item.Blank()
      ensures !ok ==> ParseMember(content, old(offset) + 1, depth).None?
      ensures ok ==> item.key.Some? && NoNul(item.key.value)
      ensures ok ==> old(offset) < gap <= |content| && offset == Skip(content, gap)
      ensures ok ==> ParseMember(content, old(offset) + 1, depth) == ParseAfterKey(content, item.key.value, gap, depth)
    {
      ghost var p := offset + 1;
      gap := 0;
      if offset + 1 >= |content| {
        return false, gap;
      }
      offset := offset + 1;
      SkipWhitespace();
      ghost var start := offset;
      assert ParseMember(content, p, depth) == ParseKeyed(content, start, depth);
      ok := ParseString(item);
      if !ok {
        return false, gap;
      }
      gap := offset;
      SkipWhitespace();
      item.key := Some(item.valuestring);
      item.valuestring := [];
    }
  }

  /** cJSON_ParseWithLengthOpts: a fresh tree, or null. */
  method ParseWithLength(content: seq<byte>, requireNul: bool) returns (root: Node?)
    ensures var r := JsonParse.ParseBuffer(content, requireNul);
            if r.None? then root == null else root != null && root.Valid() && root.model == r.value
    ensures root != null ==> fresh(root.repr) && (root.kind == ArrayKind ==> Keyless(root.kids))
  {
    hide Forest, Chained, HasElements, HasMembers, JsonParse.ParseValue;
    if |content| == 0 {
      NothingAtTheEnd(content, 0);
      return null;
    }
    var buffer := new ParseBuffer(content);
    if |content| > 4 && content[..3] == UTF8_BOM {
      AtSlice(content, 0, UTF8_BOM);
      buffer.offset := 3;
    } else {
      AtSlice(content, 0, UTF8_BOM);
    }
    buffer.SkipWhitespace();
    var item := new Node();
    var ok := buffer.ParseValue(item);
    if !ok {
      return null;
    }
    if requireNul {
      buffer.SkipWhitespace();
      if buffer.offset >= |content| || content[buffer.offset] != 0 {
        return null;
      }
    }
    return item;
  }

  /** cJSON_Parse of a C string. */
  method Parse(text: seq<byte>) returns (root: Node?)
    ensures var r := JsonParse.Parse(text);
            if r.None? then root == null else root != null && root.Valid() && root.model == r.value
    ensures root != null ==> fresh(root.repr) && (root.kind == ArrayKind ==> Keyless(root.kids))
  {
    root := ParseWithLength(CString(text) + [0], false);
  }

  /** Writes the UTF-8 form of the escape at `p` into `output` from `at` on; 0 means failure. */
  method Utf16LiteralToUtf8(content: seq<byte>, p: nat, end: nat, output: array<byte>, at: nat)
    returns (sequenceLength: nat, at': nat)
    requires p <= end <= |content|
    requires var r := Utf16Literal(content, p, end); r.Some? ==> at + |r.value.1| <= output.Length
    modifies output
    ensures var r := Utf16Literal(content, p, end);
            if r.None? then sequenceLength == 0 && at' == at
            else sequenceLength == r.value.0 && at' == at + |r.value.1| && output[at..at'] == r.value.1
    ensures forall i :: 0 <= i < output.Length && !(at <= i < at') ==> output[i] == old(output[i])
  {
    at' := at;
    if end - p < 6 {
      return 0, at;
    }
    var first := ParseHex4(content, p + 2);
    if 0xDC00 <= first <= 0xDFFF {
      return 0, at;
    }
    var codepoint: nat;
    if 0xD800 <= first <= 0xDBFF {
      sequenceLength := 12;
      if end - (p + 6) < 6 || content[p + 6] != BACKSLASH || content[p + 7] != LOWER_U {
        return 0, at;
      }
      var second := ParseHex4(content, p + 8);
      if second < 0xDC00 || second > 0xDFFF {
        return 0, at;
      }
      SurrogateBits(first, second);
      codepoint := 0x10000 + (first % 0x400) * 0x400 + second % 0x400;
    } else {
      sequenceLength := 6;
      codepoint := first;
    }
    assert Utf16Literal(content, p, end) == Some((sequenceLength, Utf8(codepoint)));
    at' := EncodeUtf8(codepoint, output, at);
  }

  /** The low ten bits of each half, put together. */
  lemma SurrogateBits(high: nat, low: nat)
    requires IsHighSurrogate(high) && IsLowSurrogate(low)
    ensures 0x10000 + (high % 0x400) * 0x400 + low % 0x400 == PairValue(high, low)
  {
    assert high % 0x400 == high - 0xD800;
    assert low % 0x400 == low - 0xDC00;
  }

  method ParseHex4(content: seq<byte>, p: nat) returns (h: nat)
    requires p + 4 <= |content|
    ensures h == Hex4(content, p)
  {
    h := 0;
    var i := 0;
    while i < 4
      invariant i <= 4
      invariant forall k :: p <= k < p + i ==> IsHex(content[k])
      invariant i == 0 ==> h == 0
      invariant i == 1 ==> h == HexValue(content[p]) * 16
      invariant i == 2 ==> h == (HexValue(content[p]) * 16 + HexValue(content[p + 1])) * 16
      invariant i == 3 ==>
        h == ((HexValue(content[p]) * 16 + HexValue(content[p + 1])) * 16 + HexValue(content[p + 2])) * 16
      invariant i == 4 ==> h == Hex4(content, p)
    {
      var b := content[p + i];
      if 48 <= b <= 57 {
        h := h + (b as nat - 48);
      } else if 65 <= b <= 70 {
        h := h + (10 + b as nat - 65);
      } else if 97 <= b <= 102 {
        h := h + (10 + b as nat - 97);
      } else {
        return 0;
      }
      if i < 3 {
        h := h * 16;
      }
      i := i + 1;
    }
  }

  /** `c` after `k` shifts by six bits. */
  function Shifted(c: nat, k: nat): nat {
    if k == 0 then c else Shifted(c, k - 1) / 0x40
  }

  /** The mark of the first byte for each length. */
  function FirstByteMark(length: nat): bv8 {
    if length <= 1 then 0 else if length == 2 then 0xC0 else if length == 3 then 0xE0 else 0xF0
  }

  lemma Utf8ByShifts(c: nat)
    requires c <= 0x10FFFF
    ensures var u := Utf8(c);
            && (forall i :: 1 <= i < |u| ==> u[i] == Continuation(Shifted(c, |u| - 1 - i)))
            && u[0] as int == FirstByteMark(|u|) as int + Shifted(c, |u| - 1)
  {
    var s1 := c / 0x40;
    assert Shifted(c, 1) == s1;
    assert Shifted(c, 2) == s1 / 0x40 == c / 0x1000;
    assert Shifted(c, 3) == s1 / 0x40 / 0x40 == c / 0x40000;
  }

  /** The length of the encoding and the mark of its first byte. */
  method ChooseLength(c: nat) returns (length: nat, firstByteMark: bv8)
    requires c <= 0x10FFFF
    ensures length == |Utf8(c)| && firstByteMark == FirstByteMark(length)
  {
    length, firstByteMark := 1, 0;
    if c < 0x80 {
    } else if c < 0x800 {
      length, firstByteMark := 2, 0xC0;
    } else if c < 0x10000 {
      length, firstByteMark := 3, 0xE0;
    } else {
      length, firstByteMark := 4, 0xF0;
    }
  }

  /** A small number as the bits of an octet. */
  function Octet(n: nat): (b: bv8)
    requires n < 0x100
    ensures b as int == n
  {
    if n == 0 then 0 else Octet(n - 1) + 1
  }

  method Masked(b: bv8) returns (r: byte)
    ensures r as int == 0x80 + (b as int) % 0x40
  {
    MaskByte(b);
    r := ((b | 0x80) & 0xBF) as byte;
  }

  /** `(codepoint | 0x80) & 0xBF`, on the low byte. */
  method ContinuationByte(codepoint: nat) returns (b: byte)
    ensures b == Continuation(codepoint)
  {
    hide Octet;
    b := Masked(Octet(codepoint % 0x100));
    SixBits(codepoint);
  }

  lemma SixBits(n: nat)
    ensures n % 0x100 % 0x40 == n % 0x40
  {
    var q, r := n / 0x100, n % 0x100;
    var k, low := r / 0x40, r % 0x40;
    assert n == 0x40 * (4 * q + k) + low;
    assert n / 0x40 == 4 * q + k;
  }

  method Marked(b: bv8, firstByteMark: bv8) returns (r: byte)
    requires (firstByteMark == 0xC0 && b < 0x20) || (firstByteMark == 0xE0 && b < 0x10)
          || (firstByteMark == 0xF0 && b < 0x08)
    ensures r as int == firstByteMark as int + b as int
  {
    MarkByte(b);
    r := (b | firstByteMark) as byte;
  }

  method Plain(b: bv8) returns (r: byte)
    requires b < 0x80
    ensures r as int == b as int
  {
    MarkByte(b);
    r := (b & 0x7F) as byte;
  }

  /** What is left of the code point behind its mark; a single byte has none. */
  method FirstByte(rest: nat, length: nat, firstByteMark: bv8) returns (b: byte)
    requires 1 <= length <= 4 && firstByteMark == FirstByteMark(length)
    requires rest < match length case 1 => 0x80 case 2 => 0x20 case 3 => 0x10 case _ => 0x08
    ensures b as int == FirstByteMark(length) as int + rest
  {
    hide Octet;
    var bits := Octet(rest);
    if length > 1 {
      b := Marked(bits, firstByteMark);
    } else {
      b := Plain(bits);
    }
  }

  lemma RestIsSmall(c: nat)
    requires c <= 0x10FFFF
    ensures Shifted(c, |Utf8(c)| - 1) < match |Utf8(c)| case 1 => 0x80 case 2 => 0x20 case 3 => 0x10 case _ => 0x08
  {
    assert Shifted(c, 1) == c / 0x40;
    assert Shifted(c, 2) == c / 0x40 / 0x40 == c / 0x1000;
    assert Shifted(c, 3) == c / 0x40 / 0x40 / 0x40 == c / 0x40000;
  }

  /** The encoding loop: continuation bytes from the last to the second, then the first byte. */
  method EncodeUtf8(c: nat, output: array<byte>, at: nat) returns (at': nat)
    requires c <= 0x10FFFF && at + |Utf8(c)| <= output.Length
    modifies output
    ensures at' == at + |Utf8(c)| && output[at..at'] == Utf8(c)
    ensures forall i :: 0 <= i < output.Length && !(at <= i < at') ==> output[i] == old(output[i])
  {
    hide Utf8, FirstByteMark;
    ghost var u := Utf8(c);
    hide Utf8;
    Utf8ByShifts(c);
    var length, firstByteMark := ChooseLength(c);
    var codepoint := c;
    var position := length - 1;
    while position > 0
      invariant 0 <= position < length
      invariant codepoint == Shifted(c, length - 1 - position)
      invariant forall i :: position < i < length ==> output[at + i] == u[i]
      invariant forall i :: 0 <= i < output.Length && !(at <= i < at + length) ==> output[i] == old(output[i])
    {
      var continuation := ContinuationByte(codepoint);
      output[at + position] := continuation;
      codepoint := codepoint / 0x40;
      position := position - 1;
    }
    RestIsSmall(c);
    var first := FirstByte(codepoint, length, firstByteMark);
    output[at] := first;
    at' := at + length;
    assert forall i :: 0 <= i < length ==> output[at..at'][i] == u[i];
  }
}
