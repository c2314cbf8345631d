/** A client and a server on one connection, every interleaving of their steps: the client performs one
    operation after the other, the server serves them, and the bytes of both travel in pieces. */
module Session {
  import opened Bytes
  import opened Wire
  import opened Arrival
  import opened Audio
  import opened Protocol
  import opened Catalog
  import opened ServerMachine
  import opened ClientMachine
  import opened Fidelity
  import opened Carriage

  /** `outbox` is what the client has yet to send of the current operation, `answers` what the server has
      yet to write before it reads again; `toServer` and `toClient` are the bytes that have arrived. */
  datatype World<S> = World(
    todo: seq<Op>, current: Option<Op>, receiver: Receiver, outbox: seq<byte>, results: seq<Result>,
    toServer: seq<byte>, state: State, s: S, answers: seq<byte>, toClient: seq<byte>)

  /** An operation starts when the writer takes all of its requests. */
  ghost predicate Starts<S>(w: World<S>, v: World<S>) {
    && w.current.None? && w.todo != [] && AllTravel(Requests(w.todo[0]))
    && v == w.(todo := w.todo[1..], current := Some(w.todo[0]), receiver := Begin(w.todo[0]),
               outbox := Frames(Requests(w.todo[0])))
  }

  /** Any number of the outstanding bytes. */
  ghost predicate ClientSends<S>(w: World<S>, v: World<S>) {
    var n := |w.outbox| - |v.outbox|;
    0 < n <= |w.outbox| && v == w.(outbox := w.outbox[n..], toServer := w.toServer + w.outbox[..n])
  }

  /** The client after one read. */
  function Heard<S>(w: World<S>, r: ReadResult): World<S> {
    if r.Failed? then w.(toClient := r.rest, current := None, results := w.results + [ProtocolError])
    else
      match Receive(w.receiver, r.event)
      case Complete(result) => w.(toClient := r.rest, current := None, results := w.results + [result])
      case More(receiver) => w.(toClient := r.rest, receiver := receiver)
  }

  /** A client reads only when it has sent all of its operation, and waits while an event is incomplete. */
  ghost predicate ClientReceives<S>(w: World<S>, v: World<S>) {
    w.current.Some? && w.outbox == [] && HasArrived(w.toClient) && v == Heard(w, ReadEvent(w.toClient))
  }

  /** The server after one input; it drops replies that do not fit the printer. */
  function Served<S>(engine: Engine<S>, offer: Offer, w: World<S>, input: Input, rest: seq<byte>): World<S> {
    var t := Step(engine, offer, w.state, w.s, input);
    w.(toServer := rest, state := t.state, s := t.s, answers := Frames(Kept(SentEvents(t.actions))))
  }

  function InputOf(r: ReadResult): Input {
    match r
    case Read(e, _) => Got(e)
    case Failed(error, _) => Lost(error)
  }

  ghost predicate ServerReads<S>(engine: Engine<S>, offer: Offer, w: World<S>, v: World<S>) {
    && w.answers == [] && w.state != Closed && HasArrived(w.toServer)
    && v == Served(engine, offer, w, InputOf(ReadEvent(w.toServer)), ReadEvent(w.toServer).rest)
  }

  ghost predicate ServerWrites<S>(w: World<S>, v: World<S>) {
    var n := |w.answers| - |v.answers|;
    0 < n <= |w.answers| && v == w.(answers := w.answers[n..], toClient := w.toClient + w.answers[..n])
  }

  /** The short wait for the last event of a stream runs out while nothing has arrived. */
  ghost predicate DrainTimesOut<S>(engine: Engine<S>, offer: Offer, w: World<S>, v: World<S>) {
    && w.state.Draining? && w.toServer == [] && w.answers == []
    && v == Served(engine, offer, w, Lost(IoError), [])
  }

  ghost predicate Next<S>(engine: Engine<S>, offer: Offer, w: World<S>, v: World<S>) {
    || Starts(w, v) || ClientSends(w, v) || ClientReceives(w, v)
    || ServerReads(engine, offer, w, v) || ServerWrites(w, v) || DrainTimesOut(engine, offer, w, v)
  }

  /** Nothing is said about the schedule: any number of the bytes under way may arrive next, and a drain may give
      up whenever nothing has arrived. */
  lemma EverySchedule<S>(engine: Engine<S>, offer: Offer, w: World<S>, n: nat)
    ensures 0 < n <= |w.outbox| ==>
      Next(engine, offer, w, w.(outbox := w.outbox[n..], toServer := w.toServer + w.outbox[..n]))
    ensures 0 < n <= |w.answers| ==>
      Next(engine, offer, w, w.(answers := w.answers[n..], toClient := w.toClient + w.answers[..n]))
    ensures w.state.Draining? && w.toServer == [] && w.answers == [] ==>
      exists v :: Next(engine, offer, w, v) && v.state == Top
  {
    hide Step, AllTravel, Frames, HasArrived, ReadEvent, Receive, Requests;
    if w.state.Draining? && w.toServer == [] && w.answers == [] {
      var v := Served(engine, offer, w, Lost(IoError), []);
      assert DrainTimesOut(engine, offer, w, v);
      assert v.state == Top by {
        DrainGivesUp(engine, offer, w.state, w.s);
      }
    }
  }

  lemma DrainGivesUp<S>(engine: Engine<S>, offer: Offer, st: State, s: S)
    requires st.Draining?
    ensures Step(engine, offer, st, s, Lost(IoError)).state == Top
  {
  }

  /** A fresh connection. */
  ghost predicate Init<S>(w: World<S>, ops: seq<Op>, s: S) {
    && w.todo == ops && w.current.None? && w.outbox == [] && w.results == []
    && w.toServer == [] && w.state == Top && w.s == s && w.answers == [] && w.toClient == []
  }

  // -------- what should happen

  function Outcome<S>(engine: Engine<S>, offer: Offer, op: Op, s: S): (S, Result) {
    if Succeeds(engine, op, s) then Direct(engine, offer, op, s) else (s, ProtocolError)
  }

  /** The engines' state when the callbacks of the first `n` operations have been called directly. */
  function StateAfter<S>(engine: Engine<S>, offer: Offer, ops: seq<Op>, s: S, n: nat): S
    requires n <= |ops|
  {
    if n == 0 then s else Outcome(engine, offer, ops[n - 1], StateAfter(engine, offer, ops, s, n - 1)).0
  }

  /** The result of calling the callback of operation `n` directly. */
  function ResultOf<S>(engine: Engine<S>, offer: Offer, ops: seq<Op>, s: S, n: nat): Result
    requires n < |ops|
  {
    Outcome(engine, offer, ops[n], StateAfter(engine, offer, ops, s, n)).1
  }

  /** The callbacks are registered and succeed, one operation after the other, and the writer takes the requests. */
  predicate Runnable<S>(engine: Engine<S>, offer: Offer, ops: seq<Op>, s: S) {
    forall n :: 0 <= n < |ops| ==>
      && Acceptable(ops[n]) && Speakable(ops[n]) && RequestFits(ops[n])
      && Succeeds(engine, ops[n], StateAfter(engine, offer, ops, s, n))
  }

  /** Operation `n` is answered with a reply that fits the printer. */
  predicate Answered<S>(engine: Engine<S>, offer: Offer, ops: seq<Op>, s: S, n: nat)
    requires n < |ops| && Runnable(engine, offer, ops, s)
  {
    Audible(engine, offer, ops[n], StateAfter(engine, offer, ops, s, n))
  }

  // -------- the invariant: what is under way will end as it should

  /** Between operations nothing is on its way to the client, and what the server still has to read, the
      events of `requests`, changes nothing but its own state. */
  ghost predicate IdleWith<S>(engine: Engine<S>, offer: Offer, w: World<S>, s: S, requests: seq<Event>) {
    && w.outbox == [] && w.toClient == [] && w.answers == []
    && Carries(w.toServer, [], requests)
    && Silent(Serve(engine, offer, w.state, w.s, requests), s)
    && DrainSafe(engine, offer, w.state, w.s, requests)
  }

  /** Back at the top, with nothing written. */
  ghost predicate Silent<S>(service: Service<S>, s: S) {
    service.state == Top && service.s == s && Kept(service.replies) == []
  }

  ghost predicate Idle<S>(engine: Engine<S>, offer: Offer, w: World<S>, s: S) {
    exists requests :: IdleWith(engine, offer, w, s, requests)
  }

  /** During an operation, the requests under way bring the server to the top with the direct call's
      state, and the replies under way and those to come that fit give the client what is expected: the
      result of the direct call and nothing more, or nothing. */
  ghost predicate BusyWith<S>(engine: Engine<S>, offer: Offer, w: World<S>, s: S, expected: Option<Result>,
      requests: seq<Event>, replies: seq<Event>)
  {
    var service := Serve(engine, offer, w.state, w.s, requests);
    && Carries(w.toServer, w.outbox, requests) && Carries(w.toClient, w.answers, replies)
    && service.state == Top && service.s == s
    && Leads(w.receiver, replies + Kept(service.replies), expected)
    && DrainSafe(engine, offer, w.state, w.s, requests)
  }

  /** All of these replies give this result, or they leave the client waiting. */
  predicate Leads(receiver: Receiver, replies: seq<Event>, expected: Option<Result>) {
    Collected(receiver, replies) == if expected.Some? then Some((expected.value, [])) else None
  }

  ghost predicate Busy<S>(engine: Engine<S>, offer: Offer, w: World<S>, s: S, expected: Option<Result>) {
    exists requests, replies :: BusyWith(engine, offer, w, s, expected, requests, replies)
  }

  /** What operation `n` will come to. */
  function Expected<S>(engine: Engine<S>, offer: Offer, ops: seq<Op>, s: S, n: nat): Option<Result>
    requires n < |ops| && Runnable(engine, offer, ops, s)
  {
    if Answered(engine, offer, ops, s, n) then Some(ResultOf(engine, offer, ops, s, n)) else None
  }

  /** The results so far are those of the direct calls. */
  ghost predicate Delivered<S>(engine: Engine<S>, offer: Offer, ops: seq<Op>, s: S, results: seq<Result>)
    requires Runnable(engine, offer, ops, s)
  {
    |results| <= |ops| && forall i :: 0 <= i < |results| ==> Expected(engine, offer, ops, s, i) == Some(results[i])
  }

  ghost predicate BetweenOps<S>(engine: Engine<S>, offer: Offer, ops: seq<Op>, s: S, w: World<S>, n: nat) {
    n <= |ops| && w.todo == ops[n..] && Idle(engine, offer, w, StateAfter(engine, offer, ops, s, n))
  }

  ghost predicate DuringOp<S>(engine: Engine<S>, offer: Offer, ops: seq<Op>, s: S, w: World<S>, n: nat)
    requires Runnable(engine, offer, ops, s)
  {
    && n < |ops| && w.current == Some(ops[n]) && w.todo == ops[n + 1..]
    && Busy(engine, offer, w, StateAfter(engine, offer, ops, s, n + 1), Expected(engine, offer, ops, s, n))
  }

  ghost predicate Aligned<S>(engine: Engine<S>, offer: Offer, ops: seq<Op>, s: S, w: World<S>)
    requires Runnable(engine, offer, ops, s)
  {
    && Delivered(engine, offer, ops, s, w.results)
    && if w.current.None? then BetweenOps(engine, offer, ops, s, w, |w.results|)
       else DuringOp(engine, offer, ops, s, w, |w.results|)
  }

  lemma {:induction false} DrainSafeAppend<S>(engine: Engine<S>, offer: Offer, st: State, s: S, a: seq<Event>,
      b: seq<Event>)
    requires DrainSafe(engine, offer, st, s, a)
    requires var t := Serve(engine, offer, st, s, a); DrainSafe(engine, offer, t.state, t.s, b)
    ensures DrainSafe(engine, offer, st, s, a + b)
    decreases |a|
  {
    if a == [] {
      assert a + b == b;
    } else {
      assert a + b == [a[0]] + (a[1..] + b);
      ServeFirst(engine, offer, st, s, a[0], a[1..] + b);
      var t := Step(engine, offer, st, s, Got(a[0]));
      DrainSafeAppend(engine, offer, t.state, t.s, a[1..], b);
    }
  }

  /** The events of a new operation stand behind whatever the last one left unread. */
  lemma StartServes<S>(engine: Engine<S>, offer: Offer, st: State, st': S, left: seq<Event>, op: Op, s: S)
    requires Silent(Serve(engine, offer, st, st', left), s) && DrainSafe(engine, offer, st, st', left)
    requires Acceptable(op) && Succeeds(engine, op, s)
    ensures var r := Direct(engine, offer, op, s); var service := Serve(engine, offer, st, st', left + Requests(op));
            && service.state == Top && service.s == r.0 && DrainSafe(engine, offer, st, st', left + Requests(op))
            && Kept(service.replies) == Kept(Serve(engine, offer, Top, s, Requests(op)).replies)
  {
    EveryOpIsFaithful(engine, offer, op, s);
    ServeAppend(engine, offer, st, st', left, Requests(op));
    DrainSafeAppend(engine, offer, st, st', left, Requests(op));
    var replies := Serve(engine, offer, Top, s, Requests(op)).replies;
    KeptAppend(Serve(engine, offer, st, st', left).replies, replies);
    Nothing(Kept(replies));
  }

  lemma StartKeeps<S>(engine: Engine<S>, offer: Offer, w: World<S>, v: World<S>, op: Op, s: S)
    requires Idle(engine, offer, w, s) && Acceptable(op) && AllTravel(Requests(op)) && Succeeds(engine, op, s)
    requires v == w.(todo := v.todo, current := Some(op), receiver := Begin(op), outbox := Frames(Requests(op)))
    ensures var r := Direct(engine, offer, op, s);
            Busy(engine, offer, v, r.0, if Audible(engine, offer, op, s) then Some(r.1) else None)
  {
    hide Step, Direct, Conclusion, Sendable, Readable, Succeeds, Requests, Receive, DrainSafe, Kept, HasArrived;
    var left :| IdleWith(engine, offer, w, s, left);
    var replies := Kept(Serve(engine, offer, Top, s, Requests(op)).replies);
    StartServes(engine, offer, w.state, w.s, left, op, s);
    HeardExactlyWhenAudible(engine, offer, op, s);
    QueueMore(w.toServer, left, Requests(op));
    Nothing(replies);
    EmptyCarries();
    var r := Direct(engine, offer, op, s);
    assert BusyWith(engine, offer, v, r.0, if Audible(engine, offer, op, s) then Some(r.1) else None,
                    left + Requests(op), []);
  }

  lemma EmptyCarries()
    ensures Carries([], [], [])
  {
  }

  lemma SendKeeps<S>(engine: Engine<S>, offer: Offer, w: World<S>, v: World<S>, s: S, expected: Option<Result>,
      requests: seq<Event>, replies: seq<Event>)
    requires BusyWith(engine, offer, w, s, expected, requests, replies) && ClientSends(w, v)
    ensures BusyWith(engine, offer, v, s, expected, requests, replies)
  {
    SendSome(w.toServer, w.outbox, requests, |w.outbox| - |v.outbox|);
  }

  lemma WriteKeeps<S>(engine: Engine<S>, offer: Offer, w: World<S>, v: World<S>, s: S, expected: Option<Result>,
      requests: seq<Event>, replies: seq<Event>)
    requires BusyWith(engine, offer, w, s, expected, requests, replies) && ServerWrites(w, v)
    ensures BusyWith(engine, offer, v, s, expected, requests, replies)
  {
    SendSome(w.toClient, w.answers, replies, |w.answers| - |v.answers|);
  }

  /** A reply is heard: it is the first of those under way, and it leads on to what is expected. */
  lemma HearFirst(receiver: Receiver, replies: seq<Event>, more: seq<Event>, expected: Option<Result>)
    requires replies != [] && Leads(receiver, replies + more, expected)
    ensures match Receive(receiver, replies[0])
            case Complete(result) => expected == Some(result) && replies[1..] == [] && more == []
            case More(next) => Leads(next, replies[1..] + more, expected)
  {
    assert replies + more == [replies[0]] + (replies[1..] + more);
    CollectFirst(receiver, replies[0], replies[1..] + more);
  }

  lemma ReceiveKeeps<S>(engine: Engine<S>, offer: Offer, w: World<S>, v: World<S>, s: S, expected: Option<Result>,
      requests: seq<Event>, replies: seq<Event>)
    requires BusyWith(engine, offer, w, s, expected, requests, replies) && ClientReceives(w, v)
    ensures if v.current.None? then IdleWith(engine, offer, v, s, requests)
                                    && expected.Some? && v.results == w.results + [expected.value]
            else replies != [] && BusyWith(engine, offer, v, s, expected, requests, replies[1..])
                 && v.results == w.results && v.current == w.current
  {
    hide Step, Direct, Conclusion, Sendable, Readable, ReadEvent, KindOf, Requests;
    var service := Serve(engine, offer, w.state, w.s, requests);
    ReaderTakesFirst(w.toClient, w.answers, replies);
    HearFirst(w.receiver, replies, Kept(service.replies), expected);
    if v.current.None? {
      EmptyQueue(v.toClient, w.answers, replies[1..]);
    }
  }

  /** The server reads: what it writes now and what it will write later are what it would have written. */
  lemma ReadServes<S>(engine: Engine<S>, offer: Offer, w: World<S>, v: World<S>, requests: seq<Event>)
    returns (now: seq<Event>)
    requires Carries(w.toServer, w.outbox, requests) && ServerReads(engine, offer, w, v)
    ensures requests != [] && Carries(v.toServer, w.outbox, requests[1..]) && Carries([], v.answers, now)
    ensures v == w.(toServer := v.toServer, state := v.state, s := v.s, answers := v.answers)
    ensures var a := Serve(engine, offer, w.state, w.s, requests);
            var b := Serve(engine, offer, v.state, v.s, requests[1..]);
            a.state == b.state && a.s == b.s && Kept(a.replies) == now + Kept(b.replies)
    ensures DrainSafe(engine, offer, w.state, w.s, requests) ==> DrainSafe(engine, offer, v.state, v.s, requests[1..])
  {
    hide Direct, Conclusion, Sendable, Readable, KindOf;
    ReaderTakesFirst(w.toServer, w.outbox, requests);
    var e, rest := requests[0], requests[1..];
    Cons(requests);
    ServeFirst(engine, offer, w.state, w.s, e, rest);
    var sent := SentEvents(Step(engine, offer, w.state, w.s, Got(e)).actions);
    RepliesTravel(engine, offer, w.state, w.s, Got(e));
    KeptAppend(sent, Serve(engine, offer, v.state, v.s, rest).replies);
    Nothing(Frames(Kept(sent)));
    now := Kept(sent);
  }

  lemma ReadKeeps<S>(engine: Engine<S>, offer: Offer, w: World<S>, v: World<S>, s: S, expected: Option<Result>,
      requests: seq<Event>, replies: seq<Event>)
    requires BusyWith(engine, offer, w, s, expected, requests, replies) && ServerReads(engine, offer, w, v)
    ensures Busy(engine, offer, v, s, expected)
  {
    hide Step, Direct, Conclusion, HasArrived, DrainSafe, Carries, Kept, Leads, Receive, KindOf;
    var now := ReadServes(engine, offer, w, v, requests);
    var later := Kept(Serve(engine, offer, v.state, v.s, requests[1..]).replies);
    QueueJoined(w.toClient, v.answers, replies, now);
    Associate(replies, now, later);
    assert BusyWith(engine, offer, v, s, expected, requests[1..], replies + now);
  }

  lemma IdleReadKeeps<S>(engine: Engine<S>, offer: Offer, w: World<S>, v: World<S>, s: S, requests: seq<Event>)
    requires IdleWith(engine, offer, w, s, requests) && ServerReads(engine, offer, w, v)
    ensures IdleWith(engine, offer, v, s, requests[1..])
  {
    hide Step, Direct, Conclusion, HasArrived, Receive, KindOf;
    var now := ReadServes(engine, offer, w, v, requests);
    EmptyQueue([], v.answers, now);
  }

  /** Draining or at the top, the late transcribe-stop has the same effect. */
  lemma LateStopIsIgnored<S>(engine: Engine<S>, offer: Offer, ctx: nat, s: S, rest: seq<Event>)
    ensures var t := Step(engine, offer, Draining(ctx), s, Lost(IoError)); var events := [Bare(TranscribeStop)] + rest;
            && SentEvents(t.actions) == []
            && Serve(engine, offer, t.state, t.s, events) == Serve(engine, offer, Draining(ctx), s, events)
            && DrainSafe(engine, offer, t.state, t.s, events) == DrainSafe(engine, offer, Draining(ctx), s, events)
  {
    hide BuildInfo, InfoOf, SpeechEvents, Direct;
    KindOfType(TranscribeStop);
    var t := DestroyStream(engine, ctx, s);
    SentShort(Destroyed(ctx), Destroyed(ctx));
    ServeFirst(engine, offer, Draining(ctx), s, Bare(TranscribeStop), rest);
    ServeFirst(engine, offer, Top, t.s, Bare(TranscribeStop), rest);
    assert Step(engine, offer, Top, t.s, Got(Bare(TranscribeStop))) == Turn(Top, t.s, []);
  }

  lemma TimeoutKeeps<S>(engine: Engine<S>, offer: Offer, w: World<S>, v: World<S>, s: S, expected: Option<Result>,
      requests: seq<Event>, replies: seq<Event>)
    requires BusyWith(engine, offer, w, s, expected, requests, replies) && DrainTimesOut(engine, offer, w, v)
    ensures BusyWith(engine, offer, v, s, expected, requests, replies)
  {
    Cons(requests);
    LateStopIsIgnored(engine, offer, w.state.ctx, w.s, requests[1..]);
  }

  lemma IdleHasNoDrain<S>(engine: Engine<S>, offer: Offer, w: World<S>, v: World<S>, s: S, requests: seq<Event>)
    requires IdleWith(engine, offer, w, s, requests)
    ensures !DrainTimesOut(engine, offer, w, v)
  {
    EmptyQueue(w.toServer, [], requests);
  }

  lemma NextKeepsAligned<S>(engine: Engine<S>, offer: Offer, ops: seq<Op>, s: S, w: World<S>, v: World<S>)
    requires Runnable(engine, offer, ops, s) && Aligned(engine, offer, ops, s, w) && Next(engine, offer, w, v)
    ensures Aligned(engine, offer, ops, s, v)
  {
    hide Runnable, Next, Idle, Busy, Expected;
    var n := |w.results|;
    if w.current.None? {
      NextBetween(engine, offer, ops, s, w, v, n);
    } else {
      NextDuring(engine, offer, ops, s, w, v, n);
      if v.current.None? {
        DeliveredMore(engine, offer, ops, s, w.results);
      }
    }
  }

  lemma DeliveredMore<S>(engine: Engine<S>, offer: Offer, ops: seq<Op>, s: S, results: seq<Result>)
    requires Runnable(engine, offer, ops, s) && Delivered(engine, offer, ops, s, results) && |results| < |ops|
    requires Expected(engine, offer, ops, s, |results|).Some?
    ensures Delivered(engine, offer, ops, s, results + [Expected(engine, offer, ops, s, |results|).value])
  {
    hide Runnable, Expected;
  }

  lemma NextBetween<S>(engine: Engine<S>, offer: Offer, ops: seq<Op>, s: S, w: World<S>, v: World<S>, n: nat)
    requires Runnable(engine, offer, ops, s) && Next(engine, offer, w, v)
    requires w.current.None? && BetweenOps(engine, offer, ops, s, w, n)
    ensures v.results == w.results
    ensures if v.current.None? then BetweenOps(engine, offer, ops, s, v, n) else DuringOp(engine, offer, ops, s, v, n)
  {
    hide Step, Direct, Conclusion, Sendable, Readable, Receive, Requests, IdleWith, BusyWith, HasArrived;
    var s' := StateAfter(engine, offer, ops, s, n);
    if n < |ops| {
      SplitFirst(ops, n);
      assert Acceptable(ops[n]) && Speakable(ops[n]) && RequestFits(ops[n]) && Succeeds(engine, ops[n], s');
      RequestsTravel(ops[n]);
    }
    IdleKeeps(engine, offer, w, v, s');
  }

  lemma NextDuring<S>(engine: Engine<S>, offer: Offer, ops: seq<Op>, s: S, w: World<S>, v: World<S>, n: nat)
    requires Runnable(engine, offer, ops, s) && DuringOp(engine, offer, ops, s, w, n) && Next(engine, offer, w, v)
    ensures if v.current.None? then BetweenOps(engine, offer, ops, s, v, n + 1)
                                    && Expected(engine, offer, ops, s, n).Some?
                                    && v.results == w.results + [Expected(engine, offer, ops, s, n).value]
            else DuringOp(engine, offer, ops, s, v, n) && v.results == w.results
  {
    hide BusyWith, IdleWith, Expected, Next, Runnable, Direct;
    BusyKeeps(engine, offer, w, v, StateAfter(engine, offer, ops, s, n + 1), Expected(engine, offer, ops, s, n));
  }

  lemma SplitFirst(ops: seq<Op>, n: nat)
    requires n < |ops|
    ensures ops[n..][0] == ops[n] && ops[n..][1..] == ops[n + 1..]
  {
  }

  lemma IdleKeeps<S>(engine: Engine<S>, offer: Offer, w: World<S>, v: World<S>, s: S)
    requires w.current.None? && Idle(engine, offer, w, s) && Next(engine, offer, w, v)
    requires w.todo != [] ==> Acceptable(w.todo[0]) && Succeeds(engine, w.todo[0], s)
    ensures v.results == w.results
    ensures v.current.None? ==> v.todo == w.todo && Idle(engine, offer, v, s)
    ensures v.current.Some? ==> w.todo != [] && v.current == Some(w.todo[0]) && v.todo == w.todo[1..]
    ensures v.current.Some? ==>
      var r := Direct(engine, offer, w.todo[0], s);
      Busy(engine, offer, v, r.0, if Audible(engine, offer, w.todo[0], s) then Some(r.1) else None)
  {
    hide Step, Direct, Conclusion, Sendable, Readable, HasArrived, Requests, DrainSafe, Serve, BusyWith;
    if Starts(w, v) {
      StartKeeps(engine, offer, w, v, w.todo[0], s);
    } else {
      var requests :| IdleWith(engine, offer, w, s, requests);
      IdleHasNoDrain(engine, offer, w, v, s, requests);
      assert ServerReads(engine, offer, w, v);
      IdleReadKeeps(engine, offer, w, v, s, requests);
    }
  }

  lemma BusyKeeps<S>(engine: Engine<S>, offer: Offer, w: World<S>, v: World<S>, s: S, expected: Option<Result>)
    requires w.current.Some? && Busy(engine, offer, w, s, expected) && Next(engine, offer, w, v)
    ensures v.todo == w.todo
    ensures if v.current.None? then Idle(engine, offer, v, s) && expected.Some?
      && v.results == w.results + [expected.value]
            else Busy(engine, offer, v, s, expected) && v.results == w.results && v.current == w.current
  {
    hide BusyWith, IdleWith, HasArrived, AllTravel, Frames, Kept, SentEvents, Step, Receive, Requests;
    var requests, replies :| BusyWith(engine, offer, w, s, expected, requests, replies);
    if ClientSends(w, v) {
      SendKeeps(engine, offer, w, v, s, expected, requests, replies);
    } else if ClientReceives(w, v) {
      ReceiveKeeps(engine, offer, w, v, s, expected, requests, replies);
      if v.current.Some? {
        assert BusyWith(engine, offer, v, s, expected, requests, replies[1..]);
      }
    } else if ServerReads(engine, offer, w, v) {
      ReadKeeps(engine, offer, w, v, s, expected, requests, replies);
    } else if ServerWrites(w, v) {
      WriteKeeps(engine, offer, w, v, s, expected, requests, replies);
    } else {
      TimeoutKeeps(engine, offer, w, v, s, expected, requests, replies);
    }
  }

  // -------- every run

  ghost predicate IsRun<S>(engine: Engine<S>, offer: Offer, run: seq<World<S>>) {
    forall i :: 0 <= i < |run| - 1 ==> Next(engine, offer, run[i], run[i + 1])
  }

  lemma StartIsAligned<S>(engine: Engine<S>, offer: Offer, ops: seq<Op>, s: S, w: World<S>)
    requires Runnable(engine, offer, ops, s) && Init(w, ops, s)
    ensures Aligned(engine, offer, ops, s, w)
  {
    EmptyCarries();
    assert ops[0..] == ops;
    assert IdleWith(engine, offer, w, s, []);
  }

  /** In every run, however the steps interleave, wherever the bytes that have arrived end and whenever a
      drain gives up, operation i has got exactly the result of calling its callback directly with its
      arguments. */
  lemma {:induction false} EveryRunIsAligned<S>(engine: Engine<S>, offer: Offer, ops: seq<Op>, s: S, run: seq<World<S>>)
    requires Runnable(engine, offer, ops, s) && run != [] && Init(run[0], ops, s) && IsRun(engine, offer, run)
    ensures Aligned(engine, offer, ops, s, run[|run| - 1])
    decreases |run|
  {
    hide Aligned, Next, Runnable, Init;
    if |run| == 1 {
      StartIsAligned(engine, offer, ops, s, run[0]);
    } else {
      var init := run[..|run| - 1];
      EveryRunIsAligned(engine, offer, ops, s, init);
      NextKeepsAligned(engine, offer, ops, s, init[|init| - 1], run[|run| - 1]);
    }
  }

  // -------- no deadlock

  /** The step that some component can always take while there is anything left to do. */
  function Scheduled<S>(engine: Engine<S>, offer: Offer, w: World<S>): Option<World<S>> {
    if w.answers != [] then Some(w.(answers := [], toClient := w.toClient + w.answers))
    else if w.outbox != [] then Some(w.(outbox := [], toServer := w.toServer + w.outbox))
    else if w.toServer != [] then
      Some(Served(engine, offer, w, InputOf(ReadEvent(w.toServer)), ReadEvent(w.toServer).rest))
    else if w.current.Some? && w.toClient != [] then Some(Heard(w, ReadEvent(w.toClient)))
    else if w.current.None? && w.todo != [] then
      Some(w.(todo := w.todo[1..], current := Some(w.todo[0]), receiver := Begin(w.todo[0]),
              outbox := Frames(Requests(w.todo[0]))))
    else None
  }

  /** Nothing is under way in either direction. */
  predicate Quiet<S>(w: World<S>) {
    w.toServer == [] && w.toClient == [] && w.answers == [] && w.outbox == []
  }

  /** Everything has been performed, with the direct calls' results, and nothing is left in either direction. */
  ghost predicate AllDone<S>(engine: Engine<S>, offer: Offer, ops: seq<Op>, s: S, w: World<S>) {
    && |w.results| == |ops| && (forall i :: 0 <= i < |ops| ==> w.results[i] == ResultOf(engine, offer, ops, s, i))
    && Quiet(w) && w.current.None? && w.state == Top && w.s == StateAfter(engine, offer, ops, s, |ops|)
  }

  /** The client waits for ever: the reply that would complete its operation did not fit the printer. */
  ghost predicate Waits<S>(engine: Engine<S>, offer: Offer, ops: seq<Op>, s: S, w: World<S>)
    requires Runnable(engine, offer, ops, s)
  {
    && |w.results| < |ops| && Delivered(engine, offer, ops, s, w.results)
    && w.current == Some(ops[|w.results|]) && Quiet(w) && !Answered(engine, offer, ops, s, |w.results|)
  }

  lemma SendAll<S>(w: World<S>)
    ensures w.outbox != [] ==> ClientSends(w, w.(outbox := [], toServer := w.toServer + w.outbox))
    ensures w.answers != [] ==> ServerWrites(w, w.(answers := [], toClient := w.toClient + w.answers))
  {
    TakeDrop(w.outbox, |w.outbox|);
    TakeDrop(w.answers, |w.answers|);
  }

  /** Once everything has been sent a server that is not closed can read on. */
  lemma ServerCanRead<S>(engine: Engine<S>, offer: Offer, w: World<S>, requests: seq<Event>)
    requires w.answers == [] && w.toServer != [] && Carries(w.toServer, [], requests)
    requires Serve(engine, offer, w.state, w.s, requests).state == Top
    ensures w.state != Closed && HasArrived(w.toServer)
  {
    WholeQueueHasArrived(w.toServer, requests);
    if w.state == Closed {
      ClosedStays(engine, offer, w.s, requests);
    }
  }

  lemma IdleCanGoOn<S>(engine: Engine<S>, offer: Offer, ops: seq<Op>, s: S, w: World<S>)
    requires Runnable(engine, offer, ops, s) && Aligned(engine, offer, ops, s, w) && w.current.None?
    ensures AllDone(engine, offer, ops, s, w)
         || (Scheduled(engine, offer, w).Some? && Next(engine, offer, w, Scheduled(engine, offer, w).value))
  {
    hide Step, Direct, Conclusion, Sendable, Readable, ReadEvent, Receive, Requests, Kept;
    var n := |w.results|;
    var requests :| IdleWith(engine, offer, w, StateAfter(engine, offer, ops, s, n), requests);
    if w.toServer != [] {
      ServerCanRead(engine, offer, w, requests);
    } else {
      EmptyQueue(w.toServer, [], requests);
      if n < |ops| {
        SplitFirst(ops, n);
        RequestsTravel(ops[n]);
      } else {
        DeliveredAll(engine, offer, ops, s, w.results);
      }
    }
  }

  lemma DeliveredAll<S>(engine: Engine<S>, offer: Offer, ops: seq<Op>, s: S, results: seq<Result>)
    requires Runnable(engine, offer, ops, s) && Delivered(engine, offer, ops, s, results)
    ensures forall i :: 0 <= i < |results| ==>
      Answered(engine, offer, ops, s, i) && results[i] == ResultOf(engine, offer, ops, s, i)
  {
    forall i | 0 <= i < |results|
      ensures Answered(engine, offer, ops, s, i) && results[i] == ResultOf(engine, offer, ops, s, i)
    {
      assert Expected(engine, offer, ops, s, i) == Some(results[i]);
    }
  }

  lemma BusyCanGoOn<S>(engine: Engine<S>, offer: Offer, ops: seq<Op>, s: S, w: World<S>)
    requires Runnable(engine, offer, ops, s) && Aligned(engine, offer, ops, s, w) && w.current.Some?
    ensures Waits(engine, offer, ops, s, w)
         || (Scheduled(engine, offer, w).Some? && Next(engine, offer, w, Scheduled(engine, offer, w).value))
  {
    hide Step, Direct, Conclusion, Sendable, Readable, Runnable, ReadEvent, Receive, Requests, Audible;
    var n := |w.results|;
    var requests, replies :| BusyWith(engine, offer, w, StateAfter(engine, offer, ops, s, n + 1),
                                      Expected(engine, offer, ops, s, n), requests, replies);
    SendAll(w);
    if w.answers == [] && w.outbox == [] {
      if w.toServer != [] {
        ServerCanRead(engine, offer, w, requests);
      } else if w.toClient != [] {
        WholeQueueHasArrived(w.toClient, replies);
      } else {
        EmptyQueue(w.toServer, [], requests);
        EmptyQueue(w.toClient, [], replies);
        assert Collected(w.receiver, []) == None;
      }
    }
  }

  /** No deadlock: unless everything is done or the client's answer did not fit, a step is possible. */
  lemma NeverStuck<S>(engine: Engine<S>, offer: Offer, ops: seq<Op>, s: S, w: World<S>)
    requires Runnable(engine, offer, ops, s) && Aligned(engine, offer, ops, s, w)
    ensures AllDone(engine, offer, ops, s, w) || Waits(engine, offer, ops, s, w)
         || (Scheduled(engine, offer, w).Some? && Next(engine, offer, w, Scheduled(engine, offer, w).value))
  {
    hide Aligned, Next, Runnable, AllDone, Waits, Scheduled;
    if w.current.None? {
      IdleCanGoOn(engine, offer, ops, s, w);
    } else {
      BusyCanGoOn(engine, offer, ops, s, w);
    }
  }

  // -------- no endless run

  datatype Rank = Rank(ops: nat, requests: nat, draining: nat, unsent: nat, answers: nat, replies: nat)

  function RankOf<S>(w: World<S>): Rank {
    Rank(|w.todo|, |w.toServer| + |w.outbox|, if w.state.Draining? then 1 else 0, |w.outbox|, |w.answers|, |w.toClient|)
  }

  /** Lexicographic order. */
  predicate Below(a: Rank, b: Rank) {
    a.ops < b.ops || (a.ops == b.ops && (a.requests < b.requests || (a.requests == b.requests
      && (a.draining < b.draining || (a.draining == b.draining && (a.unsent < b.unsent || (a.unsent == b.unsent
      && (a.answers < b.answers || (a.answers == b.answers && a.replies < b.replies)))))))))
  }

  /** Every step, whichever it is, makes the rank smaller: no run goes on for ever. */
  lemma NextGoesDown<S>(engine: Engine<S>, offer: Offer, w: World<S>, v: World<S>)
    requires Next(engine, offer, w, v)
    ensures Below(RankOf(v), RankOf(w))
  {
    hide Receive, Direct, Conclusion, Sendable, Readable, Requests, ReadEvent, KindOf;
    if ClientReceives(w, v) {
      ReadingTakesBytes(w.toClient);
    } else if ServerReads(engine, offer, w, v) {
      ReadingTakesBytes(w.toServer);
    } else if DrainTimesOut(engine, offer, w, v) {
      assert v.state == Top;
    }
  }

  /** Where a connection ends when `pick` decides, again and again, which step comes next. */
  ghost function Final<S(!new)>(engine: Engine<S>, offer: Offer, pick: World<S> -> World<S>, w: World<S>): World<S>
    decreases |w.todo|, |w.toServer| + |w.outbox|, (if w.state.Draining? then 1 else 0), |w.outbox|, |w.answers|,
        |w.toClient|
  {
    if Next(engine, offer, w, pick(w)) then
      NextGoesDown(engine, offer, w, pick(w));
      Final(engine, offer, pick, pick(w))
    else w
  }

  /** A scheduler stops only when no step is possible. */
  ghost predicate Diligent<S(!new)>(engine: Engine<S>, offer: Offer, pick: World<S> -> World<S>) {
    forall w, v {:trigger Next(engine, offer, w, v)} :: Next(engine, offer, w, v) ==> Next(engine, offer, w, pick(w))
  }

  lemma {:induction false} FinalIsDone<S(!new)>(engine: Engine<S>, offer: Offer, ops: seq<Op>, s: S,
      pick: World<S> -> World<S>, w: World<S>)
    requires Runnable(engine, offer, ops, s) && Aligned(engine, offer, ops, s, w) && Diligent(engine, offer, pick)
    ensures var v := Final(engine, offer, pick, w);
            Aligned(engine, offer, ops, s, v) && (AllDone(engine, offer, ops, s, v) || Waits(engine, offer, ops, s, v))
    decreases |w.todo|, |w.toServer| + |w.outbox|, (if w.state.Draining? then 1 else 0), |w.outbox|, |w.answers|,
        |w.toClient|
  {
    hide Aligned, AllDone, Waits, Runnable, Next;
    if Next(engine, offer, w, pick(w)) {
      NextGoesDown(engine, offer, w, pick(w));
      NextKeepsAligned(engine, offer, ops, s, w, pick(w));
      FinalIsDone(engine, offer, ops, s, pick, pick(w));
    } else {
      NeverStuck(engine, offer, ops, s, w);
    }
  }

  lemma DoneOrWaiting<S>(engine: Engine<S>, offer: Offer, ops: seq<Op>, s: S, w: World<S>)
    requires Runnable(engine, offer, ops, s) && Aligned(engine, offer, ops, s, w)
    requires AllDone(engine, offer, ops, s, w) || Waits(engine, offer, ops, s, w)
    ensures AllDone(engine, offer, ops, s, w) <==> forall n :: 0 <= n < |ops| ==> Answered(engine, offer, ops, s, n)
  {
    hide Runnable, Direct, Conclusion, Audible, Idle, Busy;
    DeliveredAll(engine, offer, ops, s, w.results);
  }

  /** Whatever the schedule, every operation completes with exactly the result of the direct call and both
      streams end up empty, if and only if every answer fits the printer; otherwise the client gets the
      results of all operations before the first that is not answered, and waits. */
  lemma SessionRefinesDirectCalls<S(!new)>(engine: Engine<S>, offer: Offer, ops: seq<Op>, s: S,
      pick: World<S> -> World<S>, w: World<S>)
    requires Runnable(engine, offer, ops, s) && Init(w, ops, s) && Diligent(engine, offer, pick)
    ensures var v := Final(engine, offer, pick, w);
            && (AllDone(engine, offer, ops, s, v) <==>
                forall n :: 0 <= n < |ops| ==> Answered(engine, offer, ops, s, n))
            && (AllDone(engine, offer, ops, s, v) || Waits(engine, offer, ops, s, v))
  {
    hide Aligned, AllDone, Waits, Next, Runnable, Answered, Init;
    StartIsAligned(engine, offer, ops, s, w);
    FinalIsDone(engine, offer, ops, s, pick, w);
    DoneOrWaiting(engine, offer, ops, s, Final(engine, offer, pick, w));
  }

  /** An engine that answers every batch with a text too long for the printer. */
  function Verbose(): Engine<()> {
    Engine(None, Some((s: (), pcm: seq<Sample>, format: Format, language: Option<seq<byte>>) => (s, Some(LongText()))),
           None, None, None)
  }

  function LongText(): Text {
    seq(INT_MAX, _ => 97)
  }

  const ONE_SAMPLE: Op := TranscribeOp([0], Format(16000, 2, 1), None)

  lemma LongAnswerDoesNotFit(offer: Offer)
    ensures Runnable(Verbose(), offer, [ONE_SAMPLE], ()) && !Answered(Verbose(), offer, [ONE_SAMPLE], (), 0)
  {
    hide InfoOf, BuildInfo, Fed, Direct, TranscriptEvent;
    EscapedIsShort(LongText());
    TranscriptFits(LongText());
    BareLanguageFits();
    assert StateAfter(Verbose(), offer, [ONE_SAMPLE], (), 0) == ();
  }

  /** With it a client that transcribes one sample waits for ever, though the callback succeeds. */
  lemma LongAnswerIsLost(offer: Offer, pick: World<()> -> World<()>, w: World<()>)
    requires Init(w, [ONE_SAMPLE], ()) && Diligent(Verbose(), offer, pick)
    ensures Final(Verbose(), offer, pick, w).results == [] && Final(Verbose(), offer, pick, w).current.Some?
  {
    hide Runnable, Answered, AllDone, Next, Init, Verbose, ONE_SAMPLE;
    LongAnswerDoesNotFit(offer);
    SessionRefinesDirectCalls(Verbose(), offer, [ONE_SAMPLE], (), pick, w);
  }

  lemma BareLanguageFits()
    ensures RequestFits(ONE_SAMPLE)
  {
    ShortObjectFits([]);
  }

  /** A describe in a session tells exactly what the server offers. */
  lemma DescribeInSession<S>(engine: Engine<S>, offer: Offer, ops: seq<Op>, s: S, w: World<S>, i: nat)
    requires Runnable(engine, offer, ops, s) && Aligned(engine, offer, ops, s, w)
    requires i < |w.results| && ops[i] == DescribeOp
    ensures w.results[i].Described? && Describes(w.results[i].info, offer)
  {
    DeliveredAll(engine, offer, ops, s, w.results);
    DescribeRoundTrip(offer);
  }
}
