/** The wire format: one event is a header line, an optional data block and an optional payload. */
module Wire {
  import opened Bytes
  import opened JsonNumber
  import opened Json
  import opened JsonParse
  import opened JsonRoundTrip

  /** An absent payload and an empty one are the same thing on the wire. */
  datatype Event = Event(typ: seq<byte>, data: Option<Value>, payload: seq<byte>)

  datatype Error = EofError | IoError | ParseError | NoMemError

  /** What reading one event from a stream gives, and what is left of the stream. */
  datatype ReadResult =
    | Read(event: Event, rest: seq<byte>)
    | Failed(error: Error, rest: seq<byte>)

  const TYPE: seq<byte> := Ascii("type")
  const VERSION: seq<byte> := Ascii("version")
  const DATA_LENGTH: seq<byte> := Ascii("data_length")
  const PAYLOAD_LENGTH: seq<byte> := Ascii("payload_length")
  const VERSION_STRING: seq<byte> := Ascii("0.1.0")

  // -------- writing

  function DataText(e: Event): seq<byte> {
    if e.data.Some? then Print(e.data.value, false) else []
  }

  function LengthField(name: seq<byte>, n: nat): seq<Member> {
    if n > 0 then [Member(name, Number(n as real))] else []
  }

  /** The header of an event with this type and these block lengths. */
  function Header(typ: seq<byte>, dataLength: nat, payloadLength: nat): Value {
    Object([Member(TYPE, String(typ)), Member(VERSION, String(VERSION_STRING))]
           + LengthField(DATA_LENGTH, dataLength) + LengthField(PAYLOAD_LENGTH, payloadLength))
  }

  function HeaderText(e: Event): seq<byte> {
    Print(Header(e.typ, |DataText(e)|, |e.payload|), false)
  }

  /** The bytes of an event. */
  function Frame(e: Event): seq<byte> {
    HeaderText(e) + [LF] + DataText(e) + e.payload
  }

  /** The printer's bound on one text. */
  predicate Fits(text: seq<byte>) {
    |text| + 2 <= INT_MAX
  }

  /** The events the writer handles: C strings, 32-bit integers, lengths that print with `%d`. */
  predicate Writable(e: Event) {
    NoNul(e.typ) && (e.data.Some? ==> Printable(e.data.value)) && |e.payload| <= INT_MAX
  }

  /** An event whose texts both fit the printer. */
  predicate Sendable(e: Event) {
    Writable(e) && Fits(DataText(e)) && Fits(HeaderText(e))
  }

  /** The reader's parser takes the data block. */
  predicate Readable(e: Event) {
    e.data.Some? ==> NestsWithin(e.data.value, NESTING_LIMIT)
  }

  // -------- reading

  /** Where the first newline stands, or the length when there is none. */
  function LineEnd(s: seq<byte>): (n: nat)
    ensures n <= |s| && (n < |s| ==> s[n] == LF) && forall k :: 0 <= k < n ==> s[k] != LF
  {
    if s == [] || s[0] == LF then 0 else 1 + LineEnd(s[1..])
  }

  lemma {:induction false} LineEndAt(s: seq<byte>, n: nat)
    requires n <= |s| && (n < |s| ==> s[n] == LF) && forall k :: 0 <= k < n ==> s[k] != LF
    ensures LineEnd(s) == n
  {
    if n > 0 {
      assert s[0] != LF;
      LineEndAt(s[1..], n - 1);
    }
  }

  /** The type member, when it is a string. */
  function HeaderType(header: Value): Option<seq<byte>> {
    match Get(header, TYPE)
    case Some(String(t)) => Some(t)
    case _ => None
  }

  /** A length member: a positive number loses its fraction, everything else counts as zero. */
  function HeaderLength(header: Value, name: seq<byte>): nat {
    match Get(header, name)
    case Some(Number(d)) => if d > 0.0 then d.Floor else 0
    case _ => 0
  }

  /** The blocks behind a header that announced these lengths. */
  function ReadBlocks(typ: seq<byte>, dataLength: nat, payloadLength: nat, s: seq<byte>): ReadResult {
    if |s| < dataLength then Failed(EofError, [])
    else
      var data := if dataLength == 0 then None else Parse(s[..dataLength]);
      if dataLength > 0 && data.None? then Failed(ParseError, s[dataLength..])
      else ReadPayload(typ, data, payloadLength, s[dataLength..])
  }

  function ReadPayload(typ: seq<byte>, data: Option<Value>, payloadLength: nat, s: seq<byte>): ReadResult {
    if |s| < payloadLength then Failed(EofError, [])
    else Read(Event(typ, data, s[..payloadLength]), s[payloadLength..])
  }

  /** Everything behind the header line. */
  function ReadBehind(line: seq<byte>, s: seq<byte>): ReadResult {
    var header := Parse(line);
    if header.None? || HeaderType(header.value).None? then Failed(ParseError, s)
    else ReadBlocks(HeaderType(header.value).value, HeaderLength(header.value, DATA_LENGTH),
                    HeaderLength(header.value, PAYLOAD_LENGTH), s)
  }

  /** One event from the front of a stream. */
  function ReadEvent(s: seq<byte>): ReadResult {
    var n := LineEnd(s);
    if n == |s| then Failed(EofError, []) else ReadBehind(s[..n], s[n + 1..])
  }

  // -------- reading undoes writing

  lemma HeaderKeys()
    ensures TYPE != VERSION && TYPE != DATA_LENGTH && TYPE != PAYLOAD_LENGTH
    ensures VERSION != DATA_LENGTH && VERSION != PAYLOAD_LENGTH && DATA_LENGTH != PAYLOAD_LENGTH
    ensures NoNul(TYPE) && NoNul(VERSION) && NoNul(DATA_LENGTH) && NoNul(PAYLOAD_LENGTH) && NoNul(VERSION_STRING)
  {
    assert |TYPE| == 4 && |VERSION| == 7 && |DATA_LENGTH| == 11 && |PAYLOAD_LENGTH| == 14;
    AsciiHasNoNul("type");
    AsciiHasNoNul("version");
    AsciiHasNoNul("data_length");
    AsciiHasNoNul("payload_length");
    AsciiHasNoNul("0.1.0");
  }

  lemma LengthFieldLookup(name: seq<byte>, n: nat, rest: seq<Member>, key: seq<byte>)
    ensures Lookup(LengthField(name, n) + rest, key)
            == if n > 0 && key == name then Some(Number(n as real)) else Lookup(rest, key)
  {
    var all := LengthField(name, n) + rest;
    if n > 0 {
      assert all[1..] == rest;
    } else {
      assert all == rest;
    }
  }

  lemma HeaderLookup(typ: seq<byte>, d: nat, p: nat, key: seq<byte>)
    ensures Get(Header(typ, d, p), key)
            == if key == TYPE then Some(String(typ)) else if key == VERSION then Some(String(VERSION_STRING))
               else if d > 0 && key == DATA_LENGTH then Some(Number(d as real))
               else if p > 0 && key == PAYLOAD_LENGTH then Some(Number(p as real)) else None
  {
    var members := Header(typ, d, p).members;
    var lengths := LengthField(DATA_LENGTH, d) + LengthField(PAYLOAD_LENGTH, p);
    var tail := [Member(VERSION, String(VERSION_STRING))] + lengths;
    assert members[0] == Member(TYPE, String(typ)) && members[1..] == tail && tail[1..] == lengths;
    assert Lookup(members, key) == if key == TYPE then Some(String(typ)) else Lookup(tail, key);
    assert Lookup(tail, key) == if key == VERSION then Some(String(VERSION_STRING)) else Lookup(lengths, key);
    assert LengthField(PAYLOAD_LENGTH, p) + [] == LengthField(PAYLOAD_LENGTH, p);
    LengthFieldLookup(DATA_LENGTH, d, LengthField(PAYLOAD_LENGTH, p), key);
    LengthFieldLookup(PAYLOAD_LENGTH, p, [], key);
  }

  /** What the reader takes out of a header is what the writer put in. */
  lemma HeaderFields(typ: seq<byte>, d: nat, p: nat)
    ensures var h := Header(typ, d, p);
            HeaderType(h) == Some(typ) && HeaderLength(h, DATA_LENGTH) == d && HeaderLength(h, PAYLOAD_LENGTH) == p
  {
    HeaderKeys();
    HeaderLookup(typ, d, p, TYPE);
    HeaderLookup(typ, d, p, DATA_LENGTH);
    HeaderLookup(typ, d, p, PAYLOAD_LENGTH);
    assert (d as real).Floor == d && (p as real).Floor == p;
  }

  lemma LengthFieldIsPrintable(name: seq<byte>, n: nat, rest: seq<Member>)
    requires NoNul(name) && n <= INT_MAX && MembersPrintable(rest) && MembersNest(rest, 0)
    ensures MembersPrintable(LengthField(name, n) + rest) && MembersNest(LengthField(name, n) + rest, 0)
  {
    if n > 0 {
      IntegersAreInt32(n);
      var m := Member(name, Number(n as real));
      assert LengthField(name, n) + rest == [m] + rest && ([m] + rest)[1..] == rest;
      MembersNestCons(m, rest, 0);
    } else {
      assert LengthField(name, n) + rest == rest;
    }
  }

  lemma StringFieldIsPrintable(name: seq<byte>, t: seq<byte>, rest: seq<Member>)
    requires NoNul(name) && NoNul(t) && MembersPrintable(rest) && MembersNest(rest, 0)
    ensures MembersPrintable([Member(name, String(t))] + rest) && MembersNest([Member(name, String(t))] + rest, 0)
  {
    assert ([Member(name, String(t))] + rest)[1..] == rest;
  }

  lemma HeaderIsPrintable(typ: seq<byte>, d: nat, p: nat)
    requires NoNul(typ) && d <= INT_MAX && p <= INT_MAX
    ensures Printable(Header(typ, d, p)) && NestsWithin(Header(typ, d, p), 1)
  {
    HeaderKeys();
    var payload := LengthField(PAYLOAD_LENGTH, p);
    LengthFieldIsPrintable(PAYLOAD_LENGTH, p, []);
    assert payload + [] == payload;
    LengthFieldIsPrintable(DATA_LENGTH, d, payload);
    var lengths := LengthField(DATA_LENGTH, d) + payload;
    StringFieldIsPrintable(VERSION, VERSION_STRING, lengths);
    StringFieldIsPrintable(TYPE, typ, [Member(VERSION, String(VERSION_STRING))] + lengths);
    assert Header(typ, d, p).members
        == [Member(TYPE, String(typ))] + ([Member(VERSION, String(VERSION_STRING))] + lengths);
  }

  /** The header line ends at the newline the writer appends: the printer escapes every control byte. */
  lemma HeaderIsOneLine(e: Event, rest: seq<byte>)
    ensures LineEnd(HeaderText(e) + [LF] + rest) == |HeaderText(e)|
  {
    UnformattedHasNoControl(Header(e.typ, |DataText(e)|, |e.payload|), 0);
    LineEndAt(HeaderText(e) + [LF] + rest, |HeaderText(e)|);
  }

  /** The reader behind the line of a written header. */
  lemma ReadBehindHeader(e: Event, s: seq<byte>)
    requires Writable(e) && |DataText(e)| <= INT_MAX
    ensures ReadBehind(HeaderText(e), s) == ReadBlocks(e.typ, |DataText(e)|, |e.payload|, s)
  {
    HeaderIsPrintable(e.typ, |DataText(e)|, |e.payload|);
    NestsMore(Header(e.typ, |DataText(e)|, |e.payload|), 1, NESTING_LIMIT);
    ParseUndoesPrint(Header(e.typ, |DataText(e)|, |e.payload|), false);
    HeaderFields(e.typ, |DataText(e)|, |e.payload|);
  }

  lemma {:induction false} NestsMore(v: Value, k: nat, m: nat)
    requires NestsWithin(v, k) && k <= m
    ensures NestsWithin(v, m)
    decreases v
  {
    match v
    case Array(items) => ItemsNestMore(items, k - 1, m - 1);
    case Object(members) => MembersNestMore(members, k - 1, m - 1);
    case _ =>
  }

  lemma {:induction false} ItemsNestMore(items: seq<Value>, k: nat, m: nat)
    requires ItemsNest(items, k) && k <= m
    ensures ItemsNest(items, m)
    decreases items
  {
    if items != [] {
      NestsMore(items[0], k, m);
      ItemsNestMore(items[1..], k, m);
    }
  }

  lemma {:induction false} MembersNestMore(members: seq<Member>, k: nat, m: nat)
    requires MembersNest(members, k) && k <= m
    ensures MembersNest(members, m)
    decreases members
  {
    if members != [] {
      NestsMore(members[0].value, k, m);
      MembersNestMore(members[1..], k, m);
    }
  }

  lemma ReadPayloadBlock(typ: seq<byte>, data: Option<Value>, payload: seq<byte>, rest: seq<byte>)
    ensures ReadPayload(typ, data, |payload|, payload + rest) == Read(Event(typ, data, payload), rest)
  {
    assert (payload + rest)[..|payload|] == payload && (payload + rest)[|payload|..] == rest;
  }

  lemma ReadWrittenBlocks(e: Event, rest: seq<byte>)
    requires Writable(e) && Readable(e)
    ensures ReadBlocks(e.typ, |DataText(e)|, |e.payload|, DataText(e) + (e.payload + rest)) == Read(e, rest)
  {
    var s := DataText(e) + (e.payload + rest);
    assert s[..|DataText(e)|] == DataText(e) && s[|DataText(e)|..] == e.payload + rest;
    ReadPayloadBlock(e.typ, e.data, e.payload, rest);
    if e.data.Some? {
      RenderIsNeverEmpty(e.data.value, false, 0);
      ParseUndoesPrint(e.data.value, false);
    }
  }

  /** A written event comes back, whatever follows it in the stream. */
  lemma ReadUndoesFrame(e: Event, rest: seq<byte>)
    requires Sendable(e) && Readable(e)
    ensures ReadEvent(Frame(e) + rest) == Read(e, rest)
  {
    var behind := DataText(e) + (e.payload + rest);
    ReadFrame(e, rest);
    ReadWrittenBlocks(e, rest);
  }

  lemma ReadFrame(e: Event, rest: seq<byte>)
    requires Sendable(e)
    ensures ReadEvent(Frame(e) + rest)
            == ReadBlocks(e.typ, |DataText(e)|, |e.payload|, DataText(e) + (e.payload + rest))
  {
    var behind := DataText(e) + (e.payload + rest);
    assert Frame(e) + rest == HeaderText(e) + [LF] + behind by {
      Regroup(HeaderText(e) + [LF], DataText(e), e.payload, rest);
    }
    HeaderIsOneLine(e, behind);
    ReadLineFirst(HeaderText(e), behind);
    ReadBehindHeader(e, behind);
  }

  lemma Regroup(a: seq<byte>, b: seq<byte>, c: seq<byte>, d: seq<byte>)
    ensures a + b + c + d == a + (b + (c + d))
  {
  }

  lemma ReadLineFirst(line: seq<byte>, s: seq<byte>)
    requires LineEnd(line + [LF] + s) == |line|
    ensures ReadEvent(line + [LF] + s) == ReadBehind(line, s)
  {
    var t := line + [LF] + s;
    assert t[..|line|] == line && t[|line| + 1..] == s;
  }

  /** The nesting limit is the only obstacle: an event comes back exactly when its data nests within it. */
  lemma ReadUndoesFrameIffReadable(e: Event, rest: seq<byte>)
    requires Sendable(e)
    ensures ReadEvent(Frame(e) + rest) == Read(e, rest) <==> Readable(e)
  {
    if Readable(e) {
      ReadUndoesFrame(e, rest);
    } else {
      ReadFrame(e, rest);
      var s := DataText(e) + (e.payload + rest);
      assert s[..|DataText(e)|] == DataText(e);
      RenderIsNeverEmpty(e.data.value, false, 0);
      RoundTripIffNested(e.data.value, false);
    }
  }

  // -------- whole streams

  function Frames(events: seq<Event>): seq<byte> {
    if events == [] then [] else Frame(events[0]) + Frames(events[1..])
  }

  /** The first `n` events of a stream, as far as they can be read, and what is left. */
  function ReadMany(s: seq<byte>, n: nat): (seq<Event>, seq<byte>) {
    if n == 0 then ([], s)
    else
      match ReadEvent(s)
      case Failed(_, rest) => ([], rest)
      case Read(e, rest) =>
        var r := ReadMany(rest, n - 1);
        ([e] + r.0, r.1)
  }

  predicate AllTravel(events: seq<Event>) {
    forall i :: 0 <= i < |events| ==> Sendable(events[i]) && Readable(events[i])
  }

  /** Reading as many events as were written gives them all back in order and leaves what came after them. */
  lemma {:induction false} ReadingUndoesWriting(events: seq<Event>, rest: seq<byte>)
    requires AllTravel(events)
    ensures ReadMany(Frames(events) + rest, |events|) == (events, rest)
  {
    if events == [] {
      assert Frames(events) + rest == rest;
    } else {
      var more := Frames(events[1..]) + rest;
      Associate(Frame(events[0]), Frames(events[1..]), rest);
      ReadUndoesFrame(events[0], more);
      ReadingUndoesWriting(events[1..], rest);
      Cons(events);
    }
  }

  lemma {:induction false} FramesAppend(a: seq<Event>, b: seq<Event>)
    ensures Frames(a + b) == Frames(a) + Frames(b)
  {
    if a == [] {
      assert a + b == b;
    } else {
      assert (a + b)[1..] == a[1..] + b;
      FramesAppend(a[1..], b);
    }
  }

  /** Those of the events that fit the printer; the server writes no others. */
  function Kept(events: seq<Event>): seq<Event> {
    if events == [] then [] else (if Sendable(events[0]) then [events[0]] else []) + Kept(events[1..])
  }

  lemma {:induction false} KeptAppend(a: seq<Event>, b: seq<Event>)
    ensures Kept(a + b) == Kept(a) + Kept(b)
  {
    if a == [] {
      assert a + b == b;
    } else {
      assert (a + b)[0] == a[0] && (a + b)[1..] == a[1..] + b;
      KeptAppend(a[1..], b);
      Associate(if Sendable(a[0]) then [a[0]] else [], Kept(a[1..]), Kept(b));
    }
  }

  lemma KeptOne(e: Event)
    ensures Kept([e]) == if Sendable(e) then [e] else []
  {
    assert [e][1..] == [];
  }

  lemma {:induction false} KeptAll(events: seq<Event>)
    requires forall i :: 0 <= i < |events| ==> Sendable(events[i])
    ensures Kept(events) == events
  {
    if events != [] {
      KeptAll(events[1..]);
      Cons(events);
    }
  }

  lemma {:induction false} KeptAreSome(events: seq<Event>)
    ensures forall e :: e in Kept(events) ==> e in events && Sendable(e)
  {
    if events != [] {
      KeptAreSome(events[1..]);
    }
  }

  /** Two streams of events with the same bytes are the same. */
  lemma FramesAreUnambiguous(a: seq<Event>, b: seq<Event>)
    requires AllTravel(a) && AllTravel(b) && Frames(a) == Frames(b)
    ensures a == b
  {
    if |a| <= |b| {
      TravelPrefix(b, |a|);
      Split(b, |a|);
      PrefixOfFrames(a, b[..|a|], b[|a|..]);
    } else {
      TravelPrefix(a, |b|);
      Split(a, |b|);
      PrefixOfFrames(b, a[..|b|], a[|b|..]);
    }
  }

  lemma PrefixOfFrames(a: seq<Event>, c: seq<Event>, d: seq<Event>)
    requires AllTravel(a) && AllTravel(c) && |a| == |c| && Frames(a) == Frames(c) + Frames(d)
    ensures a == c && d == []
  {
    SameFrames(a, c, Frames(d));
    if d != [] {
      FramesAreNotEmpty(d);
    }
  }

  lemma TravelPrefix(events: seq<Event>, n: nat)
    requires AllTravel(events) && n <= |events|
    ensures AllTravel(events[..n])
  {
  }

  lemma Split(events: seq<Event>, n: nat)
    requires n <= |events|
    ensures events == events[..n] + events[n..] && (n == |events| ==> events[..n] == events)
    ensures Frames(events) == Frames(events[..n]) + Frames(events[n..])
  {
    TakeDrop(events, n);
    FramesAppend(events[..n], events[n..]);
  }

  lemma FramesAreNotEmpty(events: seq<Event>)
    requires events != []
    ensures Frames(events) != []
  {
    assert |Frame(events[0])| > 0;
  }

  lemma SameFrames(a: seq<Event>, c: seq<Event>, rest: seq<byte>)
    requires AllTravel(a) && AllTravel(c) && |a| == |c| && Frames(a) == Frames(c) + rest
    ensures a == c && rest == []
  {
    assert Frames(a) + [] == Frames(a);
    ReadingUndoesWriting(a, []);
    ReadingUndoesWriting(c, rest);
  }

  // -------- reading on

  predicate ReadsTo(s: seq<byte>, e: Event, rest: seq<byte>) {
    ReadEvent(s) == Read(e, rest)
  }

  /** Reading event after event from the front of a stream gives these, and `rest` is left. */
  ghost predicate Yields(s: seq<byte>, events: seq<Event>, rest: seq<byte>)
    decreases |events|
  {
    if events == [] then rest == s
    else
      exists left {:trigger ReadsTo(left, events[|events| - 1], rest)} ::
        Yields(s, events[..|events| - 1], left) && ReadsTo(left, events[|events| - 1], rest)
  }

  lemma YieldsMore(s: seq<byte>, events: seq<Event>, left: seq<byte>, e: Event, rest: seq<byte>)
    requires Yields(s, events, left) && ReadsTo(left, e, rest)
    ensures Yields(s, events + [e], rest)
  {
    var more := events + [e];
    assert more[..|more| - 1] == events && more[|more| - 1] == e;
    assert ReadsTo(left, more[|more| - 1], rest);
  }

  lemma ReadConsumes(s: seq<byte>)
    ensures ReadEvent(s).Read? ==> |ReadEvent(s).rest| < |s|
  {
  }

  /** A stream yields one list of events of each length only. */
  lemma {:induction false} YieldsOnce(s: seq<byte>, a: seq<Event>, b: seq<Event>, rest: seq<byte>, left: seq<byte>)
    requires Yields(s, a, rest) && Yields(s, b, left) && |a| == |b|
    ensures a == b && rest == left
    decreases |a|
  {
    if a != [] {
      var n := |a| - 1;
      var p :| Yields(s, a[..n], p) && ReadsTo(p, a[n], rest);
      var q :| Yields(s, b[..n], q) && ReadsTo(q, b[n], left);
      YieldsOnce(s, a[..n], b[..n], p, q);
      Snoc(a);
      Snoc(b);
    }
  }

  /** A stream of written events yields them. */
  lemma {:induction false} FramesYield(events: seq<Event>, rest: seq<byte>)
    requires AllTravel(events)
    ensures Yields(Frames(events) + rest, events, rest)
    decreases |events|
  {
    if events == [] {
      assert Frames(events) + rest == rest;
    } else {
      var n := |events| - 1;
      TravelPrefix(events, n);
      FramesYield(events[..n], Frame(events[n]) + rest);
      ReadUndoesFrame(events[n], rest);
      Snoc(events);
      YieldsFrame(events[..n], events[n], rest);
    }
  }

  lemma YieldsFrame(events: seq<Event>, e: Event, rest: seq<byte>)
    requires Yields(Frames(events) + (Frame(e) + rest), events, Frame(e) + rest) && ReadsTo(Frame(e) + rest, e, rest)
    ensures Yields(Frames(events + [e]) + rest, events + [e], rest)
  {
    FramesOfMore(events, e, rest);
    YieldsMore(Frames(events) + (Frame(e) + rest), events, Frame(e) + rest, e, rest);
  }

  lemma FramesOfMore(events: seq<Event>, e: Event, rest: seq<byte>)
    ensures Frames(events + [e]) + rest == Frames(events) + (Frame(e) + rest)
  {
    FramesAppend(events, [e]);
    assert [e][1..] == [];
    assert Frames([e]) == Frame(e) + [];
    assert Frames(events) + (Frame(e) + []) + rest == Frames(events) + (Frame(e) + rest);
  }
}
