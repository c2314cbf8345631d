/** The printer over a growable or a fixed buffer. It prints exactly the rendering of the tree, and it
    fails exactly when the rendering and two more bytes do not fit. */
module Printer {
  import opened Bytes
  import opened JsonNumber
  import opened JsonString
  import opened Json
  import opened Nodes

  class PrintBuffer {
    var buffer: array<byte>
    var length: nat
    var offset: nat
    var depth: nat
    const noalloc: bool
    const format: bool

    constructor (buffer: array<byte>, length: nat, noalloc: bool, format: bool)
      requires length <= buffer.Length && length <= INT_MAX
      ensures this.buffer == buffer && this.length == length && offset == 0 && depth == 0
      ensures this.noalloc == noalloc && this.format == format
    {
      this.buffer, this.length, offset, depth := buffer, length, 0, 0;
      this.noalloc, this.format := noalloc, format;
    }

    /** The offset stays inside the buffer; only an empty buffer has no room for its NUL. */
    ghost predicate Valid()
      reads this`buffer, this`length, this`offset
    {
      length <= buffer.Length && length <= INT_MAX && (offset < length || (length == 0 && offset == 0))
    }

    /** How far the buffer can ever reach. */
    function Limit(): nat
      reads this`length
    {
      if noalloc then length else INT_MAX
    }

    /** `text` stands at the offset behind what was printed `before`, ended by a NUL, with a byte to spare. */
    ghost predicate Holds(before: seq<byte>, at: nat, text: seq<byte>)
      reads this`buffer, this`length, buffer
    {
      && length <= buffer.Length && at == |before| && at + |text| + 2 <= length
      && buffer[..at + |text|] == before + text && buffer[at + |text|] == 0
    }

    /** Makes sure that `needed` bytes and a NUL fit behind the offset. */
    method Ensure(needed: nat) returns (ok: bool)
      requires Valid()
      modifies this`buffer, this`length
      ensures Valid() && Limit() == old(Limit())
      ensures ok == (offset + needed + 1 <= Limit())
      ensures ok ==> offset + needed + 1 <= length
      ensures buffer == old(buffer) || (!noalloc && fresh(buffer))
      ensures buffer[..offset] == old(buffer[..offset])
    {
      if length > 0 && offset >= length {
        return false;
      }
      if needed > INT_MAX {
        return false;
      }
      var total := needed + offset + 1;
      if total <= length {
        return true;
      }
      if noalloc {
        return false;
      }
      var newSize: nat;
      if total > INT_MAX / 2 {
        if total <= INT_MAX {
          newSize := INT_MAX;
        } else {
          return false;
        }
      } else {
        newSize := total * 2;
      }
      var newBuffer := new byte[newSize];
      var i := 0;
      while i < length
        modifies newBuffer
        invariant i <= length
        invariant newBuffer[..i] == buffer[..i]
      {
        newBuffer[i] := buffer[i];
        i := i + 1;
      }
      assert newBuffer[..offset] == newBuffer[..length][..offset] == buffer[..length][..offset];
      length := newSize;
      buffer := newBuffer;
      return true;
    }

    /** Reserves `needed` bytes and writes `text` behind the offset, with a NUL when asked; the offset
        stays. */
    method Put(needed: nat, text: seq<byte>, terminate: bool) returns (ok: bool)
      requires Valid() && |text| + (if terminate then 1 else 0) <= needed + 1
      modifies this`buffer, this`length, buffer
      ensures Valid() && Limit() == old(Limit())
      ensures ok == (offset + needed + 1 <= Limit())
      ensures ok ==> offset + needed + 1 <= length && buffer[..offset + |text|] == old(buffer[..offset]) + text
      ensures ok && terminate ==> offset + |text| < buffer.Length && buffer[offset + |text|] == 0
      ensures buffer == old(buffer) || (!noalloc && fresh(buffer))
    {
      ok := Ensure(needed);
      if ok {
        Store(text);
        if terminate {
          buffer[offset + |text|] := 0;
        }
      }
    }

    /** The bytes of a text, one after the other. */
    method Store(text: seq<byte>)
      requires offset + |text| <= buffer.Length
      modifies buffer
      ensures buffer[..offset + |text|] == old(buffer[..offset]) + text
    {
      ghost var before := buffer[..offset];
      var i := 0;
      while i < |text|
        invariant i <= |text|
        invariant buffer[..offset + i] == before + text[..i]
      {
        buffer[offset + i] := text[i];
        i := i + 1;
      }
      assert text[..i] == text;
    }

    /** The offset has moved behind `text`. */
    ghost predicate Advanced(before: seq<byte>, text: seq<byte>)
      reads this`buffer, this`length, this`offset, buffer
    {
      Valid() && offset == |before| + |text| && buffer[..offset] == before + text
    }

    /** Put, and the offset moves behind the text. */
    method Emit(needed: nat, text: seq<byte>, terminate: bool) returns (ok: bool)
      requires Valid() && |text| <= needed && |text| + (if terminate then 1 else 0) <= needed + 1
      modifies this`buffer, this`length, this`offset, buffer
      ensures Limit() == old(Limit()) && (buffer == old(buffer) || (!noalloc && fresh(buffer)))
      ensures ok == (old(offset) + needed + 1 <= Limit())
      ensures ok ==> Advanced(old(buffer[..offset]), text)
    {
      ok := Put(needed, text, terminate);
      if ok {
        offset := offset + |text|;
      }
    }

    lemma AdvancedTwice(before: seq<byte>, a: seq<byte>, b: seq<byte>)
      requires Advanced(before + a, b)
      ensures Advanced(before, a + b)
    {
      Associate(before, a, b);
    }

    /** update_offset: moves the offset to the NUL that ends what was written behind it. */
    method UpdateOffset(ghost end: nat)
      requires length <= buffer.Length && length <= INT_MAX && offset <= end < length && buffer[end] == 0
      requires forall i :: offset <= i < end ==> buffer[i] != 0
      modifies this`offset
      ensures offset == end
    {
      while buffer[offset] != 0
        invariant old(offset) <= offset <= end
        decreases end - offset
      {
        offset := offset + 1;
      }
    }

    /** The `%d` text of a number; the offset moves behind it. */
    method PrintNumber(item: Node) returns (ok: bool)
      requires Valid() && item.Valid() && item.kind == NumberKind && IsInt32(item.valuedouble)
      modifies this`buffer, this`length, this`offset, buffer
      ensures Limit() == old(Limit()) && (buffer == old(buffer) || (!noalloc && fresh(buffer)))
      ensures ok == (old(offset) + |Render(item.model, format, depth)| + 2 <= Limit())
      ensures ok ==> Valid() && old(offset) <= offset <= old(offset) + |Render(item.model, format, depth)|
      ensures ok ==> Holds(old(buffer[..offset]), old(offset), Render(item.model, format, depth))
    {
      var text := Decimal(item.valueint);
      DecimalIsShort(item.valueint);
      ok := Put(|text| + 1, text, true);
      if ok {
        offset := offset + |text|;
      }
    }

    /** The counting pass over a C string: additional bytes that escapes need. */
    static method CountEscapes(input: seq<byte>) returns (escapes: nat)
      ensures escapes == ExtraTotal(input)
    {
      escapes := 0;
      var i := 0;
      while i < |input|
        invariant i <= |input| && escapes == ExtraTotal(input[..i])
      {
        var b := input[i];
        assert input[..i + 1][..i] == input[..i];
        if b == QUOTE || b == BACKSLASH || b == 8 || b == 12 || b == LF || b == CR || b == TAB {
          escapes := escapes + 1;
        } else if b < 32 {
          escapes := escapes + 5;
        }
        i := i + 1;
      }
      assert input[..i] == input;
    }

    /** The writing pass: the escaped bytes from `at` on. */
    method WriteEscaped(input: seq<byte>, at: nat)
      requires at + |Escaped(input)| <= buffer.Length
      modifies buffer
      ensures buffer[..at + |Escaped(input)|] == old(buffer[..at]) + Escaped(input)
    {
      ghost var before := buffer[..at];
      var out := at;
      var i := 0;
      while i < |input|
        invariant i <= |input| && out == at + |Escaped(input[..i])| && out <= at + |Escaped(input)|
        invariant buffer[..out] == before + Escaped(input[..i])
      {
        EscapedStep(input, i);
        out := WriteByte(input[i], out);
        Associate(before, Escaped(input[..i]), EscapeByte(input[i]));
        i := i + 1;
      }
      assert input[..i] == input;
    }

    /** One byte of the writing pass: itself, a backslash and a letter, or a backslash and `uXXXX`. */
    method WriteByte(b: byte, at: nat) returns (out: nat)
      requires at + |EscapeByte(b)| <= buffer.Length
      modifies buffer
      ensures out == at + |EscapeByte(b)| && buffer[..out] == old(buffer[..at]) + EscapeByte(b)
    {
      out := at;
      if b > 31 && b != QUOTE && b != BACKSLASH {
        buffer[out] := b;
      } else {
        buffer[out] := BACKSLASH;
        out := out + 1;
        if b == BACKSLASH || b == QUOTE {
          buffer[out] := b;
        } else if b == 8 {
          buffer[out] := 98;
        } else if b == 12 {
          buffer[out] := 102;
        } else if b == LF {
          buffer[out] := 110;
        } else if b == CR {
          buffer[out] := 114;
        } else if b == TAB {
          buffer[out] := 116;
        } else {
          WriteCode(b, out);
          out := out + 4;
        }
      }
      out := out + 1;
    }

    /** sprintf("u%04x"). */
    method WriteCode(b: byte, at: nat)
      requires b < 32 && at + 5 <= buffer.Length
      modifies buffer
      ensures buffer[at..at + 5] == [LOWER_U, DIGIT0, DIGIT0, HexDigit(b as nat / 16), HexDigit(b as nat % 16)]
      ensures buffer[..at] == old(buffer[..at])
    {
      buffer[at], buffer[at + 1], buffer[at + 2] := LOWER_U, DIGIT0, DIGIT0;
      buffer[at + 3], buffer[at + 4] := HexDigit(b as nat / 16), HexDigit(b as nat % 16);
    }

    method WritePlain(input: seq<byte>, at: nat)
      requires at + |input| <= buffer.Length
      modifies buffer
      ensures buffer[..at + |input|] == old(buffer[..at]) + input
    {
      ghost var before := buffer[..at];
      var i := 0;
      while i < |input|
        invariant i <= |input| && buffer[..at + i] == before + input[..i]
      {
        buffer[at + i] := input[i];
        i := i + 1;
      }
      assert input[..i] == input;
    }

    /** The quoted string at `at`, into room that has been reserved. */
    method WriteQuoted(input: seq<byte>, escapes: nat, at: nat)
      requires escapes == ExtraTotal(input) && at + |input| + escapes + 3 <= buffer.Length
      modifies buffer
      ensures |Quoted(input)| == |input| + escapes + 2
      ensures buffer[..at + |Quoted(input)|] == old(buffer[..at]) + Quoted(input) && buffer[at + |Quoted(input)|] == 0
    {
      hide Escaped, ExtraTotal;
      CountMatchesEscaped(input);
      ghost var before := buffer[..at];
      buffer[at] := QUOTE;
      assert buffer[..at + 1] == before + [QUOTE];
      if escapes == 0 {
        WritePlain(input, at + 1);
      } else {
        WriteEscaped(input, at + 1);
      }
      var end := at + 1 + |input| + escapes;
      ghost var escaped := Escaped(input);
      assert buffer[..end] == before + [QUOTE] + escaped;
      CloseQuote(end);
      QuotedParts(before, escaped);
    }

    method CloseQuote(end: nat)
      requires end + 2 <= buffer.Length
      modifies buffer
      ensures buffer[..end + 1] == old(buffer[..end]) + [QUOTE] && buffer[end + 1] == 0
    {
      buffer[end] := QUOTE;
      buffer[end + 1] := 0;
    }

    static lemma QuotedParts(before: seq<byte>, escaped: seq<byte>)
      ensures before + [QUOTE] + escaped + [QUOTE] == before + ([QUOTE] + escaped + [QUOTE])
    {
    }

    /** print_string_ptr: the quoted string behind the offset, which stays. */
    method PrintStringPtr(input: seq<byte>) returns (ok: bool)
      requires Valid()
      modifies this`buffer, this`length, buffer
      ensures Valid() && Limit() == old(Limit()) && (buffer == old(buffer) || (!noalloc && fresh(buffer)))
      ensures ok == (offset + |Quoted(input)| + 2 <= Limit())
      ensures ok ==> Holds(old(buffer[..offset]), offset, Quoted(input))
    {
      hide Escaped, ExtraTotal;
      var escapes := CountEscapes(input);
      CountMatchesEscaped(input);
      ok := Ensure(|input| + escapes + 3);
      if ok {
        WriteQuoted(input, escapes, offset);
      }
    }

    /** print_value: any tree; the offset ends up somewhere inside its text. */
    method PrintValue(item: Node) returns (ok: bool)
      requires Valid() && item.Valid() && Printable(item.model)
      modifies this`buffer, this`length, this`offset, this`depth, buffer
      ensures Limit() == old(Limit()) && (buffer == old(buffer) || (!noalloc && fresh(buffer)))
      ensures ok == (old(offset) + |Render(item.model, format, old(depth))| + 2 <= Limit())
      ensures ok ==> Valid() && depth == old(depth)
      ensures ok ==> old(offset) <= offset <= old(offset) + |Render(item.model, format, depth)|
      ensures ok ==> Holds(old(buffer[..offset]), old(offset), Render(item.model, format, depth))
      decreases item.repr, 5
    {
      if item.kind == ArrayKind {
        ok := PrintArray(item);
      } else if item.kind == ObjectKind {
        ok := PrintObject(item);
      } else {
        ok := PrintScalar(item);
      }
    }

    /** A value that is no container. */
    method PrintScalar(item: Node) returns (ok: bool)
      requires Valid() && item.Valid() && Printable(item.model) && item.kind != ArrayKind && item.kind != ObjectKind
      modifies this`buffer, this`length, this`offset, buffer
      ensures Limit() == old(Limit()) && (buffer == old(buffer) || (!noalloc && fresh(buffer)))
      ensures ok == (old(offset) + |Render(item.model, format, depth)| + 2 <= Limit())
      ensures ok ==> Valid() && old(offset) <= offset <= old(offset) + |Render(item.model, format, depth)|
      ensures ok ==> Holds(old(buffer[..offset]), old(offset), Render(item.model, format, depth))
    {
      hide Escaped, Decimal, Forest, Linked, RenderItems, RenderMembers;
      match item.kind
      case NullKind => ok := Put(5, NULL_TEXT, true);
      case FalseKind => ok := Put(6, FALSE_TEXT, true);
      case TrueKind => ok := Put(5, TRUE_TEXT, true);
      case NumberKind => ok := PrintNumber(item);
      case StringKind => ok := PrintStringPtr(item.valuestring);
    }

    /** A child's value, with the offset moved behind it. */
    method PrintChild(item: Node) returns (ok: bool)
      requires Valid() && item.Valid() && Printable(item.model)
      modifies this`buffer, this`length, this`offset, this`depth, buffer
      ensures Limit() == old(Limit()) && (buffer == old(buffer) || (!noalloc && fresh(buffer)))
      ensures ok == (old(offset) + |Render(item.model, format, old(depth))| + 2 <= Limit())
      ensures ok ==> depth == old(depth) && Advanced(old(buffer[..offset]), Render(item.model, format, depth))
      decreases item.repr, 6
    {
      ghost var before, at, text := buffer[..offset], offset, Render(item.model, format, depth);
      ok := PrintValue(item);
      if ok {
        RenderHasNoNul(item.model, format, depth);
        HeldBytes(before, at, text);
        UpdateOffset(at + |text|);
      }
    }

    /** The whole text, into a buffer that holds nothing yet. */
    method PrintRoot(item: Node) returns (ok: bool)
      requires Valid() && offset == 0 && item.Valid() && Printable(item.model)
      modifies this`buffer, this`length, this`offset, this`depth, buffer
      ensures Limit() == old(Limit()) && ok == (|Render(item.model, format, old(depth))| + 2 <= Limit())
      ensures ok ==> offset <= buffer.Length && buffer[..offset] == Render(item.model, format, old(depth))
    {
      ghost var before, text := buffer[..0], Render(item.model, format, depth);
      ok := PrintChild(item);
      assert before + text == text;
    }

    lemma HeldBytes(before: seq<byte>, at: nat, text: seq<byte>)
      requires Holds(before, at, text)
      ensures forall i :: at <= i < at + |text| ==> buffer[i] == text[i - at]
    {
      forall i | at <= i < at + |text| ensures buffer[i] == text[i - at] {
        assert buffer[..at + |text|][i] == (before + text)[i];
      }
    }

    /** One element and the separator behind it, if another one follows. */
    method PrintItem(item: Node, ghost items: seq<Value>, ghost i: nat) returns (ok: bool)
      requires Valid() && item.Valid() && Printable(item.model)
      requires i < |items| && items[i] == item.model && (item.next != null) == (i + 1 < |items|)
      modifies this`buffer, this`length, this`offset, this`depth, buffer
      ensures Limit() == old(Limit()) && (buffer == old(buffer) || (!noalloc && fresh(buffer)))
      ensures ok == (old(offset) + |ItemText(items, i, format, old(depth))| + 2 <= Limit())
      ensures ok ==> depth == old(depth) && Advanced(old(buffer[..offset]), ItemText(items, i, format, depth))
      decreases item.repr, 7
    {
      ghost var before, text := buffer[..offset], Render(item.model, format, depth);
      ok := PrintChild(item);
      if ok && item.next != null {
        var length := if format then 2 else 1;
        ok := Emit(length + 1, Separator(format), true);
        if ok {
          AdvancedTwice(before, text, Separator(format));
        }
      }
    }

    /** The same, behind what was printed before it. */
    method NextItem(item: Node, ghost items: seq<Value>, ghost i: nat, ghost before: seq<byte>,
        ghost done: seq<byte>) returns (ok: bool)
      requires Valid() && item.Valid() && Printable(item.model) && Advanced(before, done)
      requires i < |items| && items[i] == item.model && (item.next != null) == (i + 1 < |items|)
      modifies this`buffer, this`length, this`offset, this`depth, buffer
      ensures Limit() == old(Limit()) && (buffer == old(buffer) || (!noalloc && fresh(buffer)))
      ensures if ok then depth == old(depth) && Advanced(before, done + ItemText(items, i, format, depth))
              else |before| + |done| + |ItemText(items, i, format, old(depth))| + 2 > Limit()
      decreases item.repr, 10
    {
      ok := PrintItem(item, items, i);
      if ok {
        AdvancedTwice(before, done, ItemText(items, i, format, depth));
      }
    }

    /** The loop of print_array. */
    method PrintItems(parent: Node) returns (ok: bool)
      requires Valid() && parent.Valid() && parent.kind == ArrayKind && Printable(parent.model)
      modifies this`buffer, this`length, this`offset, this`depth, buffer
      ensures Limit() == old(Limit()) && (buffer == old(buffer) || (!noalloc && fresh(buffer)))
      ensures var text := RenderItems(parent.model.items, format, old(depth));
              if ok then depth == old(depth) && Advanced(old(buffer[..offset]), text)
              else old(offset) + |text| + 2 > Limit()
      decreases parent.repr, 2
    {
      hide Forest, Linked, ItemsLeft, ItemText, RenderItems;
      ghost var before := buffer[..offset];
      ghost var items, kids := parent.model.items, parent.kids;
      ghost var i := 0;
      ghost var done := [];
      FirstChild(parent);
      var current := parent.child;
      ItemsStart(items, format, depth);
      while current != null
        invariant Limit() == old(Limit()) && (buffer == old(buffer) || (!noalloc && fresh(buffer)))
          && depth == old(depth)
        invariant 0 <= i <= |kids| && current == if i == |kids| then null else kids[i]
        invariant Advanced(before, done) && ItemsLeft(items, i, done, format, depth)
        decreases |kids| - i
      {
        PrintItemsStep(items, i, done, format, depth);
        ChildOf(parent, i);
        ok := NextItem(current, items, i, before, done);
        if !ok {
          return false;
        }
        done := done + ItemText(items, i, format, depth);
        i := i + 1;
        current := current.next;
      }
      ItemsEnd(items, done, format, depth);
      return true;
    }

    method PrintArray(item: Node) returns (ok: bool)
      requires Valid() && item.Valid() && item.kind == ArrayKind && Printable(item.model)
      modifies this`buffer, this`length, this`offset, this`depth, buffer
      ensures Limit() == old(Limit()) && (buffer == old(buffer) || (!noalloc && fresh(buffer)))
      ensures ok == (old(offset) + |Render(item.model, format, old(depth))| + 2 <= Limit())
      ensures ok ==> Valid() && depth == old(depth)
      ensures ok ==> old(offset) <= offset <= old(offset) + |Render(item.model, format, depth)|
      ensures ok ==> Holds(old(buffer[..offset]), old(offset), Render(item.model, format, depth))
      decreases item.repr, 4
    {
      assert Render(item.model, format, depth)
          == [LBRACKET] + RenderItems(item.model.items, format, depth + 1) + [RBRACKET];
      ok := PrintBrackets(item);
    }

    /** The elements between their brackets. */
    method PrintBrackets(item: Node) returns (ok: bool)
      requires Valid() && item.Valid() && item.kind == ArrayKind && Printable(item.model)
      modifies this`buffer, this`length, this`offset, this`depth, buffer
      ensures Limit() == old(Limit()) && (buffer == old(buffer) || (!noalloc && fresh(buffer)))
      ensures var text := [LBRACKET] + RenderItems(item.model.items, format, old(depth) + 1) + [RBRACKET];
              && ok == (old(offset) + |text| + 2 <= Limit())
              && (ok ==> Valid() && depth == old(depth) && old(offset) <= offset <= old(offset) + |text|
                         && Holds(old(buffer[..offset]), old(offset), text))
      decreases item.repr, 3
    {
      ghost var before, inside := buffer[..offset], RenderItems(item.model.items, format, depth + 1);
      ok := OpenItems(item);
      if ok {
        ok := PutLast(before, 2, [LBRACKET] + inside, [RBRACKET]);
        if ok {
          depth := depth - 1;
        }
      }
    }

    /** The opening bracket and the elements. */
    method OpenItems(item: Node) returns (ok: bool)
      requires Valid() && item.Valid() && item.kind == ArrayKind && Printable(item.model)
      modifies this`buffer, this`length, this`offset, this`depth, buffer
      ensures Limit() == old(Limit()) && (buffer == old(buffer) || (!noalloc && fresh(buffer)))
      ensures var text := [LBRACKET] + RenderItems(item.model.items, format, old(depth) + 1);
              if ok then depth == old(depth) + 1 && Advanced(old(buffer[..offset]), text)
              else old(offset) + |text| + 2 > Limit()
      decreases item.repr, 3, 0
    {
      hide RenderItems, ItemsPrintable, Forest, Linked;
      ghost var before, inside := buffer[..offset], RenderItems(item.model.items, format, depth + 1);
      ok := Emit(1, [LBRACKET], false);
      if !ok {
        return false;
      }
      depth := depth + 1;
      ok := PrintItems(item);
      if ok {
        AdvancedTwice(before, [LBRACKET], inside);
      }
    }

    /** The closing bytes of a container, which the offset does not pass. */
    method PutLast(ghost before: seq<byte>, needed: nat, ghost done: seq<byte>, text: seq<byte>) returns (ok: bool)
      requires Advanced(before, done) && |text| + 1 == needed
      modifies this`buffer, this`length, buffer
      ensures Limit() == old(Limit()) && (buffer == old(buffer) || (!noalloc && fresh(buffer))) && Valid()
      ensures ok == (|before| + |done + text| + 2 <= Limit())
      ensures ok ==> Holds(before, |before|, done + text)
    {
      ok := Put(needed, text, true);
      if ok {
        Associate(before, done, text);
      }
    }

    /** The key, quoted, with the offset moved behind it. */
    method PrintName(key: seq<byte>) returns (ok: bool)
      requires Valid()
      modifies this`buffer, this`length, this`offset, buffer
      ensures Limit() == old(Limit()) && (buffer == old(buffer) || (!noalloc && fresh(buffer)))
      ensures ok == (old(offset) + |Quoted(key)| + 2 <= Limit())
      ensures ok ==> Advanced(old(buffer[..offset]), Quoted(key))
    {
      ghost var before, at := buffer[..offset], offset;
      ok := PrintStringPtr(key);
      if ok {
        QuotedHasNoNul(key);
        HeldBytes(before, at, Quoted(key));
        UpdateOffset(at + |Quoted(key)|);
      }
    }

    /** Indentation, key, colon and tab of one line of an object, up to its value. */
    method PrintKey(key: seq<byte>) returns (ok: bool)
      requires Valid()
      modifies this`buffer, this`length, this`offset, buffer
      ensures Limit() == old(Limit()) && (buffer == old(buffer) || (!noalloc && fresh(buffer)))
      ensures var text := KeyText(key, format, depth);
              if ok then Advanced(old(buffer[..offset]), text) else old(offset) + |text| + 1 > Limit()
    {
      ghost var before, tabs := buffer[..offset], When(format, Tabs(depth));
      if format {
        ok := Emit(depth, Tabs(depth), false);
        if !ok {
          return false;
        }
      }
      assert before + [] == before;
      assert buffer[..offset] == before + tabs;
      ok := PrintName(key);
      if !ok {
        return false;
      }
      AdvancedTwice(before, tabs, Quoted(key));
      var length := if format then 2 else 1;
      ok := Emit(length, [COLON] + When(format, [TAB]), false);
      if !ok {
        return false;
      }
      AdvancedTwice(before, tabs + Quoted(key), [COLON] + When(format, [TAB]));
      return true;
    }

    /** One line of an object. */
    method PrintMember(item: Node, ghost members: seq<Member>, ghost i: nat) returns (ok: bool)
      requires Valid() && item.Valid() && Printable(item.model) && item.key.Some?
      requires i < |members| && members[i] == Member(item.key.value, item.model)
        && (item.next == null) == (i + 1 == |members|)
      modifies this`buffer, this`length, this`offset, this`depth, buffer
      ensures Limit() == old(Limit()) && (buffer == old(buffer) || (!noalloc && fresh(buffer)))
      ensures ok == (old(offset) + |MemberText(members, i, format, old(depth))| + 2 <= Limit())
      ensures ok ==> depth == old(depth) && Advanced(old(buffer[..offset]), MemberText(members, i, format, depth))
      decreases item.repr, 9
    {
      MemberByParts(members[i], item.next == null, format, depth);
      ok := PrintLine(item, When(item.next != null, [COMMA]) + When(format, [LF]));
    }

    /** Key and value of a member with the bytes that end its line. */
    method PrintLine(item: Node, tail: seq<byte>) returns (ok: bool)
      requires Valid() && item.Valid() && Printable(item.model) && item.key.Some?
      modifies this`buffer, this`length, this`offset, this`depth, buffer
      ensures Limit() == old(Limit()) && (buffer == old(buffer) || (!noalloc && fresh(buffer)))
      ensures var text := KeyText(item.key.value, format, old(depth)) + Render(item.model, format, old(depth)) + tail;
              ok == (old(offset) + |text| + 2 <= Limit())
                  && (ok ==> depth == old(depth) && Advanced(old(buffer[..offset]), text))
      decreases item.repr, 8
    {
      ghost var before, text := buffer[..offset],
          KeyText(item.key.value, format, depth) + Render(item.model, format, depth);
      ok := PrintPair(item);
      if ok {
        ok := Emit(|tail| + 1, tail, true);
        if ok {
          AdvancedTwice(before, text, tail);
        }
      }
    }

    /** The key of a member and its value. */
    method PrintPair(item: Node) returns (ok: bool)
      requires Valid() && item.Valid() && Printable(item.model) && item.key.Some?
      modifies this`buffer, this`length, this`offset, this`depth, buffer
      ensures Limit() == old(Limit()) && (buffer == old(buffer) || (!noalloc && fresh(buffer)))
      ensures var text := KeyText(item.key.value, format, old(depth)) + Render(item.model, format, old(depth));
              ok == (old(offset) + |text| + 2 <= Limit())
                  && (ok ==> depth == old(depth) && Advanced(old(buffer[..offset]), text))
      decreases item.repr, 7
    {
      hide Render, Quoted, Forest, Linked;
      ghost var before, name := buffer[..offset], KeyText(item.key.value, format, depth);
      ok := PrintKey(item.key.value);
      if ok {
        ok := PrintChild(item);
        if ok {
          AdvancedTwice(before, name, Render(item.model, format, depth));
        }
      }
    }

    /** The same, behind what was printed before it. */
    method NextMember(item: Node, ghost members: seq<Member>, ghost i: nat, ghost before: seq<byte>,
        ghost done: seq<byte>) returns (ok: bool)
      requires Valid() && item.Valid() && Printable(item.model) && item.key.Some? && Advanced(before, done)
      requires i < |members| && members[i] == Member(item.key.value, item.model)
        && (item.next == null) == (i + 1 == |members|)
      modifies this`buffer, this`length, this`offset, this`depth, buffer
      ensures Limit() == old(Limit()) && (buffer == old(buffer) || (!noalloc && fresh(buffer)))
      ensures if ok then depth == old(depth) && Advanced(before, done + MemberText(members, i, format, depth))
              else |before| + |done| + |MemberText(members, i, format, old(depth))| + 2 > Limit()
      decreases item.repr, 10
    {
      ok := PrintMember(item, members, i);
      if ok {
        AdvancedTwice(before, done, MemberText(members, i, format, depth));
      }
    }

    /** The loop of print_object. */
    method PrintMembers(parent: Node) returns (ok: bool)
      requires Valid() && parent.Valid() && parent.kind == ObjectKind && Printable(parent.model)
      modifies this`buffer, this`length, this`offset, this`depth, buffer
      ensures Limit() == old(Limit()) && (buffer == old(buffer) || (!noalloc && fresh(buffer)))
      ensures var text := RenderMembers(parent.model.members, format, old(depth));
              if ok then depth == old(depth) && Advanced(old(buffer[..offset]), text)
              else old(offset) + |text| + 2 > Limit()
      decreases parent.repr, 2
    {
      hide Forest, Linked, MembersLeft, MemberText, RenderMembers;
      ghost var before := buffer[..offset];
      ghost var members, kids := parent.model.members, parent.kids;
      ghost var i := 0;
      ghost var done := [];
      FirstChild(parent);
      var current := parent.child;
      MembersStart(members, format, depth);
      while current != null
        invariant Limit() == old(Limit()) && (buffer == old(buffer) || (!noalloc && fresh(buffer)))
          && depth == old(depth)
        invariant 0 <= i <= |kids| && current == if i == |kids| then null else kids[i]
        invariant Advanced(before, done) && MembersLeft(members, i, done, format, depth)
        decreases |kids| - i
      {
        PrintMembersStep(members, i, done, format, depth);
        ChildOf(parent, i);
        ok := NextMember(current, members, i, before, done);
        if !ok {
          return false;
        }
        done := done + MemberText(members, i, format, depth);
        i := i + 1;
        current := current.next;
      }
      MembersEnd(members, done, format, depth);
      return true;
    }

    method PrintObject(item: Node) returns (ok: bool)
      requires Valid() && item.Valid() && item.kind == ObjectKind && Printable(item.model)
      modifies this`buffer, this`length, this`offset, this`depth, buffer
      ensures Limit() == old(Limit()) && (buffer == old(buffer) || (!noalloc && fresh(buffer)))
      ensures ok == (old(offset) + |Render(item.model, format, old(depth))| + 2 <= Limit())
      ensures ok ==> Valid() && depth == old(depth)
      ensures ok ==> old(offset) <= offset <= old(offset) + |Render(item.model, format, depth)|
      ensures ok ==> Holds(old(buffer[..offset]), old(offset), Render(item.model, format, depth))
      decreases item.repr, 4
    {
      hide Forest, Linked, RenderMembers, MembersPrintable;
      ObjectByParts(item.model.members, format, depth);
      ok := PrintBraces(item, [LBRACE] + When(format, [LF]), When(format, Tabs(depth)) + [RBRACE],
          Render(item.model, format, depth));
    }

    /** The members between an opening and a closing text. */
    method PrintBraces(item: Node, open: seq<byte>, close: seq<byte>, ghost text: seq<byte>) returns (ok: bool)
      requires Valid() && item.Valid() && item.kind == ObjectKind && Printable(item.model) && |close| > 0
      requires text == open + RenderMembers(item.model.members, format, depth + 1) + close
      modifies this`buffer, this`length, this`offset, this`depth, buffer
      ensures Limit() == old(Limit()) && (buffer == old(buffer) || (!noalloc && fresh(buffer)))
      ensures ok == (old(offset) + |text| + 2 <= Limit())
      ensures ok ==> Valid() && depth == old(depth) && old(offset) <= offset <= old(offset) + |text|
      ensures ok ==> Holds(old(buffer[..offset]), old(offset), text)
      decreases item.repr, 3
    {
      ghost var before, inside := buffer[..offset], RenderMembers(item.model.members, format, depth + 1);
      ok := OpenMembers(item, open);
      if ok {
        ok := PutLast(before, |close| + 1, open + inside, close);
        if ok {
          depth := depth - 1;
        }
      }
    }

    /** The opening text and the members. */
    method OpenMembers(item: Node, open: seq<byte>) returns (ok: bool)
      requires Valid() && item.Valid() && item.kind == ObjectKind && Printable(item.model)
      modifies this`buffer, this`length, this`offset, this`depth, buffer
      ensures Limit() == old(Limit()) && (buffer == old(buffer) || (!noalloc && fresh(buffer)))
      ensures var text := open + RenderMembers(item.model.members, format, old(depth) + 1);
              if ok then depth == old(depth) + 1 && Advanced(old(buffer[..offset]), text)
              else old(offset) + |text| + 2 > Limit()
      decreases item.repr, 3, 0
    {
      hide RenderMembers, MembersPrintable, Forest, Linked;
      ghost var before, inside := buffer[..offset], RenderMembers(item.model.members, format, depth + 1);
      ok := Emit(|open| + 1, open, false);
      if !ok {
        return false;
      }
      depth := depth + 1;
      ok := PrintMembers(item);
      if ok {
        AdvancedTwice(before, open, inside);
      }
    }
  }

  /** cJSON_Print and cJSON_PrintUnformatted: the text of the tree, unless it is too long for an int. */
  method PrintTree(item: Node, format: bool) returns (printed: Option<seq<byte>>)
    requires item.Valid() && Printable(item.model)
    ensures var text := Print(item.model, format);
            printed == if |text| + 2 <= INT_MAX then Some(text) else None
  {
    var buffer := new byte[256];
    var p := new PrintBuffer(buffer, 256, false, format);
    var ok := p.PrintRoot(item);
    if !ok {
      return None;
    }
    printed := Some(p.buffer[..p.offset]);
  }

  /** cJSON_PrintPreallocated: succeeds exactly when the text and two more bytes fit. */
  method PrintPreallocated(item: Node, buffer: array<byte>, length: int, format: bool) returns (ok: bool)
    requires item.Valid() && Printable(item.model) && length <= buffer.Length && length <= INT_MAX
    modifies buffer
    ensures var text := Print(item.model, format);
            && ok == (|text| + 2 <= length)
            && (ok ==> buffer[..|text|] == text && buffer[|text|] == 0)
  {
    if length < 0 {
      return false;
    }
    var p := new PrintBuffer(buffer, length, true, format);
    ghost var text := Print(item.model, format);
    ok := p.PrintValue(item);
    if ok {
      assert buffer[..|text|] == [] + text;
    }
  }

  function KeyText(key: seq<byte>, format: bool, depth: nat): seq<byte> {
    When(format, Tabs(depth)) + Quoted(key) + ([COLON] + When(format, [TAB]))
  }

  lemma QuotedHasNoNul(s: seq<byte>)
    ensures NoNul(Quoted(s))
  {
  }

  lemma MemberByParts(m: Member, last: bool, format: bool, depth: nat)
    ensures RenderMember(m, last, format, depth)
         == KeyText(m.key, format, depth) + Render(m.value, format, depth) + (When(!last, [COMMA]) + When(format, [LF]))
  {
    hide Render, Quoted, Tabs;
    Associate(KeyText(m.key, format, depth) + Render(m.value, format, depth), When(!last, [COMMA]), When(format, [LF]));
  }

  lemma ObjectByParts(members: seq<Member>, format: bool, depth: nat)
    ensures Render(Object(members), format, depth)
         == ([LBRACE] + When(format, [LF])) + RenderMembers(members, format, depth + 1)
             + (When(format, Tabs(depth)) + [RBRACE])
  {
  }
}
