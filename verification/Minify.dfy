/** cJSON_Minify: the in-place algorithm, what it computes, and when it keeps the meaning of a printed tree. */
module Minify {
  import opened Bytes
  import opened JsonNumber
  import opened JsonString
  import opened Json

  const STAR: byte := 42

  predicate IsBlank(b: byte) {
    b == SPACE || b == TAB || b == CR || b == LF
  }

  /** Behind the newline that ends a line comment. */
  function SkipLine(s: seq<byte>): (rest: seq<byte>)
    ensures |rest| <= |s|
  {
    if s == [] then [] else if s[0] == LF then s[1..] else SkipLine(s[1..])
  }

  /** Behind the end of a block comment. */
  function SkipBlock(s: seq<byte>): (rest: seq<byte>)
    ensures |rest| <= |s|
  {
    if s == [] then []
    else if s[0] == STAR && |s| > 1 && s[1] == SLASH then s[2..]
    else SkipBlock(s[1..])
  }

  /** The minified text, from outside a string on. */
  function Outside(s: seq<byte>): (t: seq<byte>)
    ensures |t| <= |s|
    decreases |s|
  {
    if s == [] then []
    else if IsBlank(s[0]) then Outside(s[1..])
    else if s[0] == SLASH then
      if |s| > 1 && s[1] == SLASH then Outside(SkipLine(s[2..]))
      else if |s| > 1 && s[1] == STAR then Outside(SkipBlock(s[2..]))
      else Outside(s[1..])
    else if s[0] == QUOTE then [QUOTE] + Inside(s[1..])
    else [s[0]] + Outside(s[1..])
  }

  /** The minified text, from inside a string on. A quote behind a backslash does not end the string,
      whatever stands before the backslash. */
  function Inside(s: seq<byte>): (t: seq<byte>)
    ensures |t| <= |s|
    decreases |s|
  {
    if s == [] then []
    else if s[0] == QUOTE then [QUOTE] + Outside(s[1..])
    else if s[0] == BACKSLASH && |s| > 1 && s[1] == QUOTE then [BACKSLASH, QUOTE] + Inside(s[2..])
    else [s[0]] + Inside(s[1..])
  }

  // -------- in place

  /** What has been written and what is still to be read: from `read` on nothing has changed. */
  ghost predicate Halfway(buf: array<byte>, s: seq<byte>, read: nat, write: nat)
    reads buf
  {
    && write <= read <= |s| < buf.Length && NoNul(s) && buf[|s|] == 0
    && forall i :: read <= i < |s| ==> buf[i] == s[i]
  }

  /** skip_oneline_comment */
  method SkipOnelineComment(buf: array<byte>, ghost s: seq<byte>, at: nat, ghost write: nat) returns (read: nat)
    requires Halfway(buf, s, at, write) && at + 1 < |s|
    ensures at < read && Halfway(buf, s, read, write) && s[read..] == SkipLine(s[at + 2..])
  {
    read := at + 2;
    while buf[read] != 0
      invariant at + 2 <= read && Halfway(buf, s, read, write) && SkipLine(s[read..]) == SkipLine(s[at + 2..])
      decreases |s| - read
    {
      assert s[read..][1..] == s[read + 1..];
      if buf[read] == LF {
        read := read + 1;
        return;
      }
      read := read + 1;
    }
  }

  /** skip_multiline_comment */
  method SkipMultilineComment(buf: array<byte>, ghost s: seq<byte>, at: nat, ghost write: nat) returns (read: nat)
    requires Halfway(buf, s, at, write) && at + 1 < |s|
    ensures at < read && Halfway(buf, s, read, write) && s[read..] == SkipBlock(s[at + 2..])
  {
    read := at + 2;
    while buf[read] != 0
      invariant at + 2 <= read && Halfway(buf, s, read, write) && SkipBlock(s[read..]) == SkipBlock(s[at + 2..])
      decreases |s| - read
    {
      assert s[read..][1..] == s[read + 1..];
      if buf[read] == STAR && buf[read + 1] == SLASH {
        assert s[read..][2..] == s[read + 2..];
        read := read + 2;
        return;
      }
      read := read + 1;
    }
  }

  /** minify_string: copies up to the closing quote or the end of the text. */
  method MinifyString(buf: array<byte>, ghost s: seq<byte>, at: nat, into: nat) returns (read: nat, write: nat)
    requires Halfway(buf, s, at, into) && at < |s| && s[at] == QUOTE
    modifies buf
    ensures at < read && Halfway(buf, s, read, write)
    ensures buf[..write] + Outside(s[read..]) == old(buf[..into]) + Outside(s[at..])
    ensures forall i :: |s| <= i < buf.Length ==> buf[i] == old(buf[i])
  {
    ghost var goal := buf[..into] + Outside(s[at..]);
    ghost var done := buf[..into];
    buf[into] := buf[at];
    read, write := at + 1, into + 1;
    assert s[at..][1..] == s[at + 1..] && buf[..write] == done + [QUOTE];
    Associate(done, [QUOTE], Inside(s[at + 1..]));
    var open := true;
    while open && buf[read] != 0
      invariant at < read && Halfway(buf, s, read, write)
      invariant buf[..write] + (if open then Inside(s[read..]) else Outside(s[read..])) == goal
      invariant forall i :: |s| <= i < buf.Length ==> buf[i] == old(buf[i])
      decreases |s| - read
    {
      open, read, write := CopyByte(buf, s, read, write);
    }
    assert open ==> s[read..] == [];
  }

  lemma InsideStep(s: seq<byte>, at: nat)
    requires at < |s|
    ensures Inside(s[at..])
            == if s[at] == QUOTE then [QUOTE] + Outside(s[at + 1..])
               else if s[at] == BACKSLASH && at + 1 < |s| && s[at + 1] == QUOTE
                    then [BACKSLASH, QUOTE] + Inside(s[at + 2..])
               else [s[at]] + Inside(s[at + 1..])
  {
    assert s[at..][0] == s[at] && s[at..][1..] == s[at + 1..];
    if at + 1 < |s| {
      assert s[at..][1] == s[at + 1] && s[at..][2..] == s[at + 2..];
    }
  }

  /** One byte of a string, or an escaped quote, or the quote that ends it. */
  method CopyByte(buf: array<byte>, ghost s: seq<byte>, at: nat, into: nat) returns (open: bool, read: nat, write: nat)
    requires Halfway(buf, s, at, into) && at < |s|
    modifies buf
    ensures at < read && Halfway(buf, s, read, write)
    ensures buf[..write] + (if open then Inside(s[read..]) else Outside(s[read..]))
      == old(buf[..into]) + Inside(s[at..])
    ensures forall i :: |s| <= i < buf.Length ==> buf[i] == old(buf[i])
  {
    hide Inside, Outside;
    InsideStep(s, at);
    ghost var done, copied := buf[..into], [buf[at]];
    buf[into] := buf[at];
    open, read, write := true, at + 1, into + 1;
    if buf[at] == QUOTE {
      open := false;
    } else if buf[at] == BACKSLASH && buf[at + 1] == QUOTE {
      buf[into + 1] := buf[at + 1];
      copied := [BACKSLASH, QUOTE];
      read, write := at + 2, into + 2;
    }
    assert buf[..write] == done + copied;
    Associate(done, copied, if open then Inside(s[read..]) else Outside(s[read..]));
  }

  /** cJSON_Minify of the C string in the buffer; the write position never passes the read position. */
  method Minify(buf: array<byte>)
    requires |CString(buf[..])| < buf.Length
    modifies buf
    ensures var t := Outside(CString(old(buf[..])));
            |t| < buf.Length && buf[..|t|] == t && buf[|t|] == 0
    ensures forall i :: |CString(old(buf[..]))| < i < buf.Length ==> buf[i] == old(buf[i])
  {
    ghost var s := CString(buf[..]);
    var read: nat, write: nat := 0, 0;
    assert s[0..] == s && buf[..0] + Outside(s) == Outside(s);
    while buf[read] != 0
      invariant Halfway(buf, s, read, write) && buf[..write] + Outside(s[read..]) == Outside(s)
      invariant forall i :: |s| <= i < buf.Length ==> buf[i] == old(buf[i])
      decreases |s| - read
    {
      read, write := Turn(buf, s, read, write);
    }
    assert s[read..] == [];
    assert buf[..write] == Outside(s);
    buf[write] := 0;
    assert buf[..write] == Outside(s);
  }

  /** One turn of the loop. */
  method Turn(buf: array<byte>, ghost s: seq<byte>, at: nat, into: nat) returns (read: nat, write: nat)
    requires Halfway(buf, s, at, into) && at < |s|
    modifies buf
    ensures at < read && Halfway(buf, s, read, write)
    ensures buf[..write] + Outside(s[read..]) == old(buf[..into]) + Outside(s[at..])
    ensures forall i :: |s| <= i < buf.Length ==> buf[i] == old(buf[i])
  {
    read, write := at, into;
    var b := buf[at];
    ghost var done := buf[..into];
    assert s[at..][0] == b && s[at..][1..] == s[at + 1..];
    if b == SPACE || b == TAB || b == CR || b == LF {
      read := at + 1;
    } else if b == SLASH {
      if buf[at + 1] == SLASH {
        assert s[at..][2..] == s[at + 2..];
        read := SkipOnelineComment(buf, s, at, into);
      } else if buf[at + 1] == STAR {
        assert s[at..][2..] == s[at + 2..];
        read := SkipMultilineComment(buf, s, at, into);
      } else {
        read := at + 1;
      }
    } else if b == QUOTE {
      read, write := MinifyString(buf, s, at, into);
    } else {
      buf[into] := b;
      read, write := at + 1, into + 1;
      assert buf[..write] == done + [b];
    }
  }
}
