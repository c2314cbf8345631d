/** Reading and writing one event on a connection, with the header and the data as cJSON trees. */
module EventIo {
  import opened Bytes
  import opened JsonNumber
  import opened Json
  import opened JsonParse
  import opened JsonRoundTrip
  import opened Nodes
  import opened SiblingList
  import opened Trees
  import Parser
  import Printer
  import opened Wire
  import opened Stream

  /** The result of reading an event, or of an error that leaves no event. */
  datatype Reply = Got(event: Event) | Lost(error: Error)

  /** What a read that the descriptor does not break gives for this stream. */
  ghost predicate Answers(reply: Reply, rest: seq<byte>, r: ReadResult) {
    match r
    case Read(e, left) => reply == Got(e) && rest == left
    case Failed(error, left) => reply == Lost(error) && rest == left
  }

  /** A member of a header, when it is a string. */
  method StringField(header: Node) returns (r: Option<seq<byte>>)
    requires header.Valid() && (header.kind == ArrayKind ==> Keyless(header.kids))
    ensures r == HeaderType(header.model)
  {
    var item := GetObjectItem(header, TYPE);
    if item == null || item.kind != StringKind {
      return None;
    }
    r := Some(item.valuestring);
  }

  /** A length member of a header. */
  method LengthOf(header: Node, name: seq<byte>) returns (n: nat)
    requires header.Valid() && (header.kind == ArrayKind ==> Keyless(header.kids))
    ensures n == HeaderLength(header.model, name)
  {
    var item := GetObjectItem(header, name);
    n := 0;
    if item != null && item.kind == NumberKind && item.valuedouble > 0.0 {
      n := item.valuedouble.Floor;
    }
  }

  /** wyoming_event_read_iobuf: the header line, the data block and the payload. */
  method ReadEvent(io: IoBuf) returns (reply: Reply)
    requires io.Valid()
    modifies io`pos, io`len, io.buf, io.fd`incoming, io.fd`script
    ensures io.Valid() && (Unbroken(old(io.fd.script)) ==> Unbroken(io.fd.script) && reply != Lost(IoError))
    ensures reply == Lost(IoError) || Answers(reply, io.Pending(), Wire.ReadEvent(old(io.Pending())))
    ensures Suffix(old(io.Pending()), io.Pending())
  {
    ghost var stream := io.Pending();
    var rc, line := io.ReadLine();
    if rc != None {
      return Lost(rc.value);
    }
    ghost var behind := io.Pending();
    reply := ReadBehindLine(io, line);
    SuffixSteps(stream, behind, io.Pending());
  }

  /** Everything behind the header line. */
  method ReadBehindLine(io: IoBuf, line: seq<byte>) returns (reply: Reply)
    requires io.Valid()
    modifies io`pos, io.fd`incoming, io.fd`script
    ensures io.Valid() && (Unbroken(old(io.fd.script)) ==> Unbroken(io.fd.script) && reply != Lost(IoError))
    ensures reply == Lost(IoError) || Answers(reply, io.Pending(), ReadBehind(line, old(io.Pending())))
    ensures Suffix(old(io.Pending()), io.Pending())
  {
    hide ReadBlocks, Parse, Get;
    var header := Parser.Parse(line);
    if header == null {
      return Lost(ParseError);
    }
    var typ := StringField(header);
    if typ == None {
      return Lost(ParseError);
    }
    var dataLength := LengthOf(header, DATA_LENGTH);
    var payloadLength := LengthOf(header, PAYLOAD_LENGTH);
    reply := ReadBlocksOf(io, typ.value, dataLength, payloadLength);
  }

  /** The data block, parsed, and the payload. */
  method ReadBlocksOf(io: IoBuf, typ: seq<byte>, dataLength: nat, payloadLength: nat) returns (reply: Reply)
    requires io.Valid()
    modifies io`pos, io.fd`incoming, io.fd`script
    ensures io.Valid() && (Unbroken(old(io.fd.script)) ==> Unbroken(io.fd.script) && reply != Lost(IoError))
    ensures reply == Lost(IoError)
         || Answers(reply, io.Pending(), ReadBlocks(typ, dataLength, payloadLength, old(io.Pending())))
    ensures Suffix(old(io.Pending()), io.Pending())
  {
    var data := None;
    if dataLength > 0 {
      var block := new byte[dataLength + 1];
      var rc := io.ReadExact(block, dataLength);
      if rc != None {
        return Lost(rc.value);
      }
      block[dataLength] := 0;
      var root := Parser.Parse(block[..dataLength]);
      if root == null {
        return Lost(ParseError);
      }
      var tree := Export(root);
      data := Some(tree);
    } else {
      assert io.Pending()[0..] == io.Pending();
    }
    reply := ReadPayloadOf(io, typ, data, payloadLength);
  }

  method ReadPayloadOf(io: IoBuf, typ: seq<byte>, data: Option<Value>, payloadLength: nat) returns (reply: Reply)
    requires io.Valid()
    modifies io`pos, io.fd`incoming, io.fd`script
    ensures io.Valid() && (Unbroken(old(io.fd.script)) ==> Unbroken(io.fd.script) && reply != Lost(IoError))
    ensures reply == Lost(IoError)
         || Answers(reply, io.Pending(), ReadPayload(typ, data, payloadLength, old(io.Pending())))
    ensures Suffix(old(io.Pending()), io.Pending())
  {
    if payloadLength == 0 {
      assert io.Pending()[..0] == [] && io.Pending()[0..] == io.Pending();
      return Got(Event(typ, data, []));
    }
    var payload := new byte[payloadLength];
    var rc := io.ReadExact(payload, payloadLength);
    if rc != None {
      return Lost(rc.value);
    }
    assert payload[..payloadLength] == payload[..];
    return Got(Event(typ, data, payload[..]));
  }

  // -------- writing

  /** cJSON_AddStringToObject, cJSON_AddNumberToObject */
  method AddMember(n: Node, m: Member, ghost members: seq<Member>)
    requires n.Valid() && n.model == Object(members) && NoNul(m.key) && WellFormed(m.value)
    modifies n`child, n`kind, n`kids, n`repr, n`model, n.kids`next, n.kids`prev
    ensures n.Valid() && n.model == Object(members + [m]) && fresh(n.repr - old(n.repr))
  {
    var item := Import(m.value);
    var ok := AddItemToObject(n, m.key, item);
    assert Member(m.key, m.value) == m;
  }

  method AddLength(n: Node, name: seq<byte>, length: nat, ghost members: seq<Member>)
    requires n.Valid() && n.model == Object(members) && NoNul(name)
    modifies n`child, n`kind, n`kids, n`repr, n`model, n.kids`next, n.kids`prev
    ensures n.Valid() && n.model == Object(members + LengthField(name, length)) && fresh(n.repr - old(n.repr))
  {
    if length > 0 {
      AddMember(n, Member(name, Number(length as real)), members);
    } else {
      assert members + [] == members;
    }
  }

  /** The header object, member by member. */
  method BuildHeader(typ: seq<byte>, dataLength: nat, payloadLength: nat) returns (header: Node)
    requires NoNul(typ)
    ensures header.Valid() && header.model == Header(typ, dataLength, payloadLength)
  {
    HeaderKeys();
    header := BuildPair(Member(TYPE, String(typ)), Member(VERSION, String(VERSION_STRING)));
    ghost var fixed := [Member(TYPE, String(typ)), Member(VERSION, String(VERSION_STRING))];
    AddLength(header, DATA_LENGTH, dataLength, fixed);
    AddLength(header, PAYLOAD_LENGTH, payloadLength, fixed + LengthField(DATA_LENGTH, dataLength));
  }

  /** An object with two string members. */
  method BuildPair(a: Member, b: Member) returns (n: Node)
    requires NoNul(a.key) && WellFormed(a.value) && NoNul(b.key) && WellFormed(b.value)
    ensures n.Valid() && fresh(n.repr) && n.model == Object([a, b])
  {
    n := BuildOne(a);
    assert [a] + [b] == [a, b];
    AddMember(n, b, [a]);
  }

  method BuildOne(a: Member) returns (n: Node)
    requires NoNul(a.key) && WellFormed(a.value)
    ensures n.Valid() && fresh(n.repr) && n.model == Object([a])
  {
    n := Import(Object([]));
    assert [] + [a] == [a];
    AddMember(n, a, []);
  }

  /** wyoming_event_write_fd: the frame of the event, a prefix of it when the descriptor breaks, and nothing
      at all when one of the texts does not fit the printer. */
  method WriteEvent(fd: Socket, e: Event) returns (rc: Option<Error>)
    requires Writable(e)
    modifies fd`outgoing, fd`script
    ensures !Sendable(e) ==> rc == Some(NoMemError) && fd.outgoing == old(fd.outgoing)
    ensures Sendable(e) ==> rc == None || rc == Some(IoError)
    ensures Sendable(e) ==> old(fd.outgoing) <= fd.outgoing <= old(fd.outgoing) + Frame(e)
    ensures rc == None ==> fd.outgoing == old(fd.outgoing) + Frame(e)
    ensures Unbroken(old(fd.script)) ==> Unbroken(fd.script) && rc != Some(IoError)
  {
    var text := [];
    if e.data.Some? {
      PrintableIsWellFormed(e.data.value);
      var data := Import(e.data.value);
      var printed := Printer.PrintTree(data, false);
      if printed == None {
        return Some(NoMemError);
      }
      text := printed.value;
    }
    HeaderIsPrintable(e.typ, |text|, |e.payload|);
    var header := BuildHeader(e.typ, |text|, |e.payload|);
    var headerText := Printer.PrintTree(header, false);
    if headerText == None {
      return Some(NoMemError);
    }
    rc := WriteSegments(fd, headerText.value, text, e.payload);
  }

  /** The four segments of a frame, as far as the descriptor takes them. */
  method WriteSegments(fd: Socket, header: seq<byte>, text: seq<byte>, payload: seq<byte>) returns (rc: Option<Error>)
    modifies fd`outgoing, fd`script
    ensures rc == None || rc == Some(IoError)
    ensures old(fd.outgoing) <= fd.outgoing <= old(fd.outgoing) + (header + [LF] + text + payload)
    ensures rc == None ==> fd.outgoing == old(fd.outgoing) + (header + [LF] + text + payload)
    ensures Unbroken(old(fd.script)) ==> Unbroken(fd.script) && rc == None
  {
    var ok; ghost var sent;
    ok, sent := WriteAll(fd, header);
    if ok {
      ok, sent := WriteAll(fd, [LF]);
    }
    if ok && |text| > 0 {
      ok, sent := WriteAll(fd, text);
    }
    if ok && |payload| > 0 {
      ok, sent := WriteAll(fd, payload);
    }
    rc := if ok then None else Some(IoError);
  }
}
