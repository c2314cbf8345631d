/** Reading a byte stream through the 8192-byte buffer, and writing to one, under every schedule of
    partial transfers and interruptions. */
module Stream {
  import opened Bytes
  import opened Wire

  const READBUF_SIZE: nat := 8192

  /** What the system makes of one call: a signal interrupts it, it moves only so many bytes, or it fails. */
  datatype Outcome = Interrupted | Short(count: nat) | Broken

  predicate Unbroken(script: seq<Outcome>) {
    forall i :: 0 <= i < |script| ==> script[i] != Broken
  }

  /** What is left of a stream after something was taken from its front. */
  predicate Suffix(s: seq<byte>, rest: seq<byte>) {
    |rest| <= |s| && rest == s[|s| - |rest|..]
  }

  lemma SuffixSteps(s: seq<byte>, t: seq<byte>, u: seq<byte>)
    requires Suffix(s, t) && Suffix(t, u)
    ensures Suffix(s, u)
  {
  }

  lemma SuffixOfSum(a: seq<byte>, b: seq<byte>)
    ensures Suffix(a + b, b) && Suffix(a, []) && Suffix(a, a)
  {
  }

  function Least(a: nat, b: nat): nat {
    if a < b then a else b
  }

  /** A connected descriptor. `script` is the schedule of the calls to come; behind its end every call
      moves as many bytes as it can. */
  class Socket {
    var incoming: seq<byte>   // everything the peer sends and this side has not read yet
    var outgoing: seq<byte>   // everything this side has written
    var script: seq<Outcome>

    constructor (incoming: seq<byte>, script: seq<Outcome>)
      ensures this.incoming == incoming && this.script == script && outgoing == []
    {
      this.incoming, this.script, outgoing := incoming, script, [];
    }

    /** read(2): the number of bytes, 0 at the end of the stream, -1 with the reason otherwise. */
    method Read(dest: array<byte>, at: nat, count: nat) returns (n: int, interrupted: bool)
      requires 0 < count && at + count <= dest.Length
      modifies this`incoming, this`script, dest
      ensures Unbroken(old(script)) ==> Unbroken(script)
      ensures n < 0 ==> incoming == old(incoming) && |script| < |old(script)| && (Unbroken(old(script)) ==> interrupted)
      ensures |script| <= |old(script)|
      ensures n >= 0 ==> n <= count && n <= |old(incoming)| && incoming == old(incoming)[n..]
      ensures n == 0 ==> old(incoming) == []
      ensures n > 0 ==> dest[at..at + n] == old(incoming)[..n]
      ensures forall i :: 0 <= i < dest.Length && !(at <= i < at + n) ==> dest[i] == old(dest[i])
    {
      interrupted := false;
      var most := count;
      if script != [] {
        var outcome := script[0];
        script := script[1..];
        match outcome {
          case Interrupted => return -1, true;
          case Broken => return -1, false;
          case Short(k) => most := if k == 0 then 1 else Least(k, count);
        }
      }
      n := Least(most, |incoming|);
      forall i | 0 <= i < n {
        dest[at + i] := incoming[i];
      }
      incoming := incoming[n..];
    }

    /** write(2) of the bytes of `text` from `done` on. */
    method Write(text: seq<byte>, done: nat) returns (n: int, interrupted: bool)
      requires done < |text|
      modifies this`outgoing, this`script
      ensures Unbroken(old(script)) ==> Unbroken(script)
      ensures n < 0 ==> outgoing == old(outgoing) && (Unbroken(old(script)) ==> interrupted)
      ensures n >= 0 ==> done + n <= |text| && outgoing == old(outgoing) + text[done..done + n]
      ensures n <= 0 ==> |script| < |old(script)|
    {
      interrupted := false;
      n := |text| - done;
      if script != [] {
        var outcome := script[0];
        script := script[1..];
        match outcome {
          case Interrupted => return -1, true;
          case Broken => return -1, false;
          case Short(k) => n := Least(k, n);
        }
      }
      outgoing := outgoing + text[done..done + n];
    }
  }

  /** write_all: the whole text, or a prefix of it when the descriptor breaks. */
  method WriteAll(fd: Socket, text: seq<byte>) returns (ok: bool, ghost sent: nat)
    modifies fd`outgoing, fd`script
    ensures sent <= |text| && fd.outgoing == old(fd.outgoing) + text[..sent]
    ensures ok ==> sent == |text|
    ensures Unbroken(old(fd.script)) ==> ok && Unbroken(fd.script)
  {
    var done := 0;
    ghost var before := fd.outgoing;
    assert before + text[..0] == before;
    while done < |text|
      invariant done <= |text| && fd.outgoing == before + text[..done]
      invariant Unbroken(old(fd.script)) ==> Unbroken(fd.script)
      decreases |text| - done, |fd.script|
    {
      var n, interrupted := fd.Write(text, done);
      if n >= 0 {
        assert before + text[..done] + text[done..done + n] == before + text[..done + n];
        done := done + n;
      } else if !interrupted {
        return false, done;
      }
    }
    return true, done;
  }

  /** wyoming_iobuf_t */
  class IoBuf {
    const fd: Socket
    const buf: array<byte>
    var pos: nat
    var len: nat

    constructor (fd: Socket)
      ensures Valid() && this.fd == fd && fresh(buf) && Pending() == fd.incoming
    {
      this.fd := fd;
      buf := new byte[READBUF_SIZE];
      pos, len := 0, 0;
    }

    ghost predicate Valid()
      reads this`pos, this`len
    {
      buf.Length == READBUF_SIZE && pos <= len <= buf.Length
    }

    /** Everything that is still to be read: the rest of the buffer and the rest of the stream. */
    ghost function Pending(): seq<byte>
      requires Valid()
      reads this`pos, this`len, buf, fd`incoming
    {
      buf[pos..len] + fd.incoming
    }

    /** The next newline in the buffer, or the end of the valid bytes. */
    method Scan() returns (i: nat)
      requires Valid()
      ensures pos <= i <= len && NoNewline(buf[pos..i])
      ensures i < len ==> buf[pos..len] == buf[pos..i] + [LF] + buf[i + 1..len]
    {
      i := pos;
      while i < len && buf[i] != LF
        invariant pos <= i <= len
        invariant forall k :: pos <= k < i ==> buf[k] != LF
      {
        i := i + 1;
      }
    }

    /** Fills the empty buffer with whatever the next call that is not interrupted brings. */
    method Refill() returns (rc: Option<Error>)
      requires Valid()
      modifies this`pos, this`len, buf, fd`incoming, fd`script
      ensures Valid() && (Unbroken(old(fd.script)) ==> Unbroken(fd.script) && rc != Some(IoError))
      ensures rc == None ==> Pending() == old(fd.incoming) && pos < len
      ensures rc == None || rc == Some(EofError) || rc == Some(IoError)
      ensures rc == Some(EofError) ==> old(fd.incoming) == [] && Pending() == []
      ensures rc != None ==> Pending() == old(fd.incoming) == fd.incoming
    {
      pos, len := 0, 0;
      while true
        invariant pos == 0 && len == 0 && fd.incoming == old(fd.incoming)
        invariant Unbroken(old(fd.script)) ==> Unbroken(fd.script)
        decreases |fd.script|
      {
        var n, interrupted := fd.Read(buf, 0, READBUF_SIZE);
        if n > 0 {
          len := n;
          return None;
        }
        if n == 0 {
          return Some(EofError);
        }
        if !interrupted {
          return Some(IoError);
        }
      }
    }

    /** iobuf_read_line: everything before the first newline, which is dropped; the line may span any
        number of buffers. */
    method ReadLine() returns (rc: Option<Error>, line: seq<byte>)
      requires Valid()
      modifies this`pos, this`len, buf, fd`incoming, fd`script
      ensures Valid() && (Unbroken(old(fd.script)) ==> Unbroken(fd.script) && rc != Some(IoError))
      ensures LineRead(old(Pending()), rc, line, Pending())
    {
      ghost var s := Pending();
      var more := true;
      line, rc := [], None;
      assert [] + s == s;
      while more
        invariant Valid() && (Unbroken(old(fd.script)) ==> Unbroken(fd.script) && rc != Some(IoError))
        invariant more ==> s == line + Pending() && NoNewline(line)
        invariant !more ==> LineRead(s, rc, line, Pending())
        decreases |fd.incoming|, more
      {
        more, rc, line := NextPiece(line, s);
      }
    }

    /** One turn of the loop: the end of the line, or one buffer more of it. */
    method NextPiece(line: seq<byte>, ghost s: seq<byte>) returns (more: bool, rc: Option<Error>, longer: seq<byte>)
      requires Valid() && s == line + Pending() && NoNewline(line)
      modifies this`pos, this`len, buf, fd`incoming, fd`script
      ensures Valid() && (Unbroken(old(fd.script)) ==> Unbroken(fd.script) && rc != Some(IoError))
      ensures |fd.incoming| <= |old(fd.incoming)| && (more ==> |fd.incoming| < |old(fd.incoming)|)
      ensures more ==> s == longer + Pending() && NoNewline(longer)
      ensures !more ==> LineRead(s, rc, longer, Pending())
    {
      var i := Scan();
      if i < len {
        longer := TakeLine(i, line, s);
        return false, None, longer;
      }
      longer, rc := TakeBuffer(line, s);
      more := rc == None;
    }

    /** The newline is at `i`: the line ends there. */
    method TakeLine(i: nat, line: seq<byte>, ghost s: seq<byte>) returns (whole: seq<byte>)
      requires Valid() && pos <= i < len && NoNewline(line) && NoNewline(buf[pos..i])
      requires buf[pos..len] == buf[pos..i] + [LF] + buf[i + 1..len] && s == line + Pending()
      modifies this`pos
      ensures Valid() && LineRead(s, None, whole, Pending())
    {
      FoundNewline(s, line, buf[pos..len], buf[pos..i], buf[i + 1..len], fd.incoming);
      whole := line + buf[pos..i];
      pos := i + 1;
    }

    /** No newline in the buffer: all of it belongs to the line, and the buffer is filled again. */
    method TakeBuffer(line: seq<byte>, ghost s: seq<byte>) returns (longer: seq<byte>, rc: Option<Error>)
      requires Valid() && NoNewline(line) && NoNewline(buf[pos..len]) && s == line + Pending()
      modifies this`pos, this`len, buf, fd`incoming, fd`script
      ensures Valid() && (Unbroken(old(fd.script)) ==> Unbroken(fd.script) && rc != Some(IoError))
      ensures |fd.incoming| <= |old(fd.incoming)| && (rc == None ==> |fd.incoming| < |old(fd.incoming)|)
      ensures rc == None ==> s == longer + Pending() && NoNewline(longer)
      ensures rc != None ==> LineRead(s, rc, longer, Pending())
    {
      ghost var stream := fd.incoming;
      FoundNothing(s, line, buf[pos..len], stream);
      longer := line + buf[pos..len];
      rc := Refill();
      SuffixOfSum(longer, stream);
    }

    /** iobuf_read_exact: the buffered bytes first, the rest straight into the destination. */
    method ReadExact(dest: array<byte>, count: nat) returns (rc: Option<Error>)
      requires Valid() && count <= dest.Length && dest != buf
      modifies this`pos, dest, fd`incoming, fd`script
      ensures Valid() && (Unbroken(old(fd.script)) ==> Unbroken(fd.script) && rc != Some(IoError))
      ensures var s := old(Pending());
              rc == Some(IoError) || (if |s| < count then rc == Some(EofError) && Pending() == []
                                      else rc == None && dest[..count] == s[..count] && Pending() == s[count..])
      ensures Suffix(old(Pending()), Pending())
    {
      ghost var s := Pending();
      var done := Drain(dest, count);
      rc := None;
      while done < count && rc == None
        invariant Valid() && done <= count && (done < count ==> pos == len)
        invariant s == dest[..done] + Pending()
        invariant rc == None || rc == Some(IoError) || (rc == Some(EofError) && done < count && fd.incoming == [])
        invariant Unbroken(old(fd.script)) ==> Unbroken(fd.script) && rc != Some(IoError)
        decreases count - done, |fd.script|, rc == None
      {
        done, rc := ReadMore(dest, done, count, s);
      }
      SuffixOfSum(dest[..done], Pending());
    }

    /** One read straight into the destination. */
    method ReadMore(dest: array<byte>, done: nat, count: nat, ghost s: seq<byte>)
      returns (done': nat, rc: Option<Error>)
      requires Valid() && done < count <= dest.Length && dest != buf && pos == len && s == dest[..done] + Pending()
      modifies dest, fd`incoming, fd`script
      ensures Valid() && done <= done' <= count && s == dest[..done'] + Pending()
      ensures rc == None ==> done < done' || |fd.script| < |old(fd.script)|
      ensures rc != None ==> done' == done && |fd.script| <= |old(fd.script)|
      ensures rc == None || rc == Some(IoError) || (rc == Some(EofError) && fd.incoming == [])
      ensures Unbroken(old(fd.script)) ==> Unbroken(fd.script) && rc != Some(IoError)
    {
      ghost var before, stream := dest[..done], fd.incoming;
      assert Pending() == stream;
      var n, interrupted := fd.Read(dest, done, count - done);
      assert dest[..done] == before;
      done', rc := done, None;
      if n > 0 {
        Moved(s, before, dest[done..done + n], stream, fd.incoming);
        done' := done + n;
        assert dest[..done'] == before + dest[done..done'] && Pending() == fd.incoming;
      } else if n == 0 {
        rc := Some(EofError);
      } else if !interrupted {
        rc := Some(IoError);
      }
    }

    /** The bytes the buffer can still give. */
    method Drain(dest: array<byte>, count: nat) returns (done: nat)
      requires Valid() && count <= dest.Length && dest != buf
      modifies this`pos, dest
      ensures Valid() && done <= count && (done < count ==> pos == len)
      ensures old(Pending()) == dest[..done] + Pending()
    {
      done := Least(len - pos, count);
      CopyOut(dest, done);
      TakenThenLeft(buf[..], pos, len, done, fd.incoming);
      pos := pos + done;
    }

    method CopyOut(dest: array<byte>, n: nat)
      requires Valid() && pos + n <= len && n <= dest.Length && dest != buf
      modifies dest
      ensures dest[..n] == buf[..][pos..pos + n]
    {
      forall i | 0 <= i < n {
        dest[i] := buf[pos + i];
      }
      assert forall i :: 0 <= i < n ==> dest[..n][i] == buf[..][pos..pos + n][i];
    }
  }

  lemma TakenThenLeft(s: seq<byte>, a: nat, b: nat, n: nat, rest: seq<byte>)
    requires a + n <= b <= |s|
    ensures s[a..b] + rest == s[a..a + n] + (s[a + n..b] + rest)
  {
  }

  /** The outcome of reading a line from a stream, and what is left of the stream. */
  predicate LineRead(s: seq<byte>, rc: Option<Error>, line: seq<byte>, rest: seq<byte>) {
    var n := LineEnd(s);
    && Suffix(s, rest)
    && (rc == Some(IoError) || (if n == |s| then rc == Some(EofError) && rest == []
                                else rc == None && line == s[..n] && rest == s[n + 1..]))
  }

  predicate NoNewline(s: seq<byte>) {
    forall k :: 0 <= k < |s| ==> s[k] != LF
  }

  /** The newline found behind `line` and `chunk` is the first one of the stream. */
  lemma FoundNewline(s: seq<byte>, line: seq<byte>, held: seq<byte>, chunk: seq<byte>, rest: seq<byte>,
      stream: seq<byte>)
    requires s == line + (held + stream) && held == chunk + [LF] + rest && NoNewline(line) && NoNewline(chunk)
    ensures var n := LineEnd(s); n < |s| && s[..n] == line + chunk && s[n + 1..] == rest + stream
  {
    Regrouped(line, chunk, [LF], rest, stream);
    FirstNewline(line + chunk, rest + stream);
  }

  lemma Regrouped(a: seq<byte>, b: seq<byte>, c: seq<byte>, d: seq<byte>, e: seq<byte>)
    ensures a + (b + c + d + e) == (a + b) + c + (d + e)
  {
  }

  lemma FirstNewline(line: seq<byte>, rest: seq<byte>)
    requires NoNewline(line)
    ensures var s := line + [LF] + rest; LineEnd(s) == |line| && s[..|line|] == line && s[|line| + 1..] == rest
  {
    LineEndAt(line + [LF] + rest, |line|);
  }

  /** A buffer without a newline belongs to the line as a whole. */
  lemma FoundNothing(s: seq<byte>, line: seq<byte>, held: seq<byte>, stream: seq<byte>)
    requires s == line + (held + stream) && NoNewline(line) && NoNewline(held)
    ensures s == (line + held) + stream && NoNewline(line + held)
    ensures stream == [] ==> LineEnd(s) == |s|
  {
    if stream == [] {
      LineEndAt(s, |s|);
    }
  }

  lemma Moved(s: seq<byte>, before: seq<byte>, got: seq<byte>, stream: seq<byte>, rest: seq<byte>)
    requires s == before + stream && |got| <= |stream| && got == stream[..|got|] && rest == stream[|got|..]
    ensures s == (before + got) + rest
  {
  }
}
