/** Stopping a server from another thread: wyoming_server_stop clears a flag and writes to a pipe while
    wyoming_server_run, in its epoll form, sets the flag once and then loops. Every atomic access of either
    thread is a step of its own, and the steps interleave freely. */
module StopProtocol {

  datatype Fd = ListenFd | StopPipe

  /** `events` are the entries of the current batch that are still to be looked at. */
  datatype RunPc =
    | Entering                            // about to set the flag
    | Testing                             // at the test of the outer loop
    | Waiting                             // in epoll_wait
    | Batch(events: seq<Fd>)              // at the test of the inner loop
    | Taking(fd: Fd, events: seq<Fd>)     // the test passed, about to act on an entry
    | Handling(events: seq<Fd>)           // inside handle_client
    | Exited

  datatype StopPc = NotCalled | Cleared | Written | Returned

  /** `late` counts the clients accepted after stop has returned. */
  datatype State = State(running: bool, pipe: bool, run: RunPc, stop: StopPc, late: nat)

  const START: State := State(false, false, Entering, NotCalled, 0)

  // -------- the steps of stop

  predicate StopSteps(s: State, t: State) {
    match s.stop
    case NotCalled => t == s.(running := false, stop := Cleared)
    case Cleared => t == s.(pipe := true, stop := Written)
    case Written => t == s.(stop := Returned)
    case Returned => false
  }

  // -------- the steps of run

  predicate NoTwice(events: seq<Fd>) {
    forall i, j :: 0 <= i < j < |events| ==> events[i] != events[j]
  }

  /** What epoll_wait reports: each descriptor at most once, in any order, and the pipe exactly when there is
      something in it, for nobody ever empties it. */
  predicate Reported(s: State, events: seq<Fd>) {
    NoTwice(events) && (StopPipe in events <==> s.pipe)
  }

  /** epoll_wait failed, and not because of a signal. */
  predicate WaitFailed(s: State, t: State) {
    s.run.Waiting? && t == s.(run := Exited)
  }

  predicate WaitSteps(s: State, t: State)
    requires s.run.Waiting?
  {
    || WaitFailed(s, t)
    || (t.run.Batch? && Reported(s, t.run.events) && t == s.(run := t.run))
  }

  /** A signal ended the wait. */
  predicate Interrupted(s: State, t: State) {
    s.run.Waiting? && t == s.(run := Testing)
  }

  predicate TakeSteps(s: State, t: State)
    requires s.run.Taking?
  {
    if s.run.fd == StopPipe then t == s.(running := false, run := Testing)
    else
      || t == s.(run := Batch(s.run.events))                                              // accept failed
      || t == s.(run := Handling(s.run.events), late := s.late + if s.stop.Returned? then 1 else 0)
  }

  /** Every step of run but the interrupted wait. */
  predicate RunSteps(s: State, t: State) {
    match s.run
    case Entering => t == s.(running := true, run := Testing)
    case Testing => t == s.(run := if s.running then Waiting else Exited)
    case Waiting => WaitSteps(s, t)
    case Batch(events) =>
      t == s.(run := if events == [] || !s.running then Testing else Taking(events[0], events[1..]))
    case Taking(_, _) => TakeSteps(s, t)
    case Handling(events) => t == s.(run := Batch(events))
    case Exited => false
  }

  predicate Next(s: State, t: State) {
    StopSteps(s, t) || RunSteps(s, t) || Interrupted(s, t)
  }

  // -------- at most two late clients

  /** The entries still to be looked at, the one just taken included. */
  function Left(run: RunPc): seq<Fd> {
    match run
    case Batch(events) => events
    case Taking(fd, events) => [fd] + events
    case Handling(events) => events
    case _ => []
  }

  function Listens(events: seq<Fd>): nat {
    if events == [] then 0 else (if events[0] == ListenFd then 1 else 0) + Listens(events[1..])
  }

  /** How many more clients run can accept once the pipe has been written: those of the current batch, and
      those of one more batch unless the current one already tells of the pipe or the loop is about to end. */
  function Budget(s: State): nat {
    if s.run.Exited? || (s.run.Testing? && !s.running) then 0
    else Listens(Left(s.run)) + if StopPipe in Left(s.run) then 0 else 1
  }

  predicate Inv(s: State) {
    && NoTwice(Left(s.run))
    && (StopPipe in Left(s.run) ==> s.pipe)
    && (s.stop.Returned? || s.late == 0)
    && ((s.stop.Written? || s.stop.Returned?) ==> s.pipe)
    && s.late + Budget(s) <= 2
  }

  lemma {:induction false} ListensAtMostOnce(events: seq<Fd>)
    requires NoTwice(events)
    ensures Listens(events) <= 1
    ensures events != [] && events[0] == ListenFd ==> Listens(events[1..]) == 0
  {
    if events != [] {
      ListensAtMostOnce(events[1..]);
      if events[0] == ListenFd {
        NoMoreListens(events[1..]);
      }
    }
  }

  lemma {:induction false} NoMoreListens(events: seq<Fd>)
    requires ListenFd !in events
    ensures Listens(events) == 0
  {
    if events != [] {
      NoMoreListens(events[1..]);
    }
  }

  lemma TakenOrNot(events: seq<Fd>)
    requires events != []
    ensures [events[0]] + events[1..] == events
  {
  }

  lemma InvIsInductive(s: State, t: State)
    requires Inv(s) && Next(s, t)
    ensures Inv(t)
  {
    ListensAtMostOnce(Left(s.run));
    if s.stop != t.stop && StopSteps(s, t) {
    } else if s.run.Taking? {
      TakeKeepsInv(s, t);
    } else if s.run.Batch? && s.run.events != [] {
      TakenOrNot(s.run.events);
    } else if s.run.Waiting? && t.run.Batch? {
      ListensAtMostOnce(t.run.events);
    }
  }

  lemma TakeKeepsInv(s: State, t: State)
    requires Inv(s) && s.run.Taking? && TakeSteps(s, t)
    ensures Inv(t)
  {
    var all, rest := Left(s.run), s.run.events;
    assert all[0] == s.run.fd && all[1..] == rest;
    SuffixNoTwice(all);
    ListensAtMostOnce(all);
    assert StopPipe in all <==> s.run.fd == StopPipe || StopPipe in rest;
  }

  lemma SuffixNoTwice(events: seq<Fd>)
    requires NoTwice(events) && events != []
    ensures NoTwice(events[1..]) && events[0] !in events[1..]
  {
  }

  ghost predicate IsRun(trace: seq<State>) {
    && trace != [] && trace[0] == START
    && forall i :: 0 <= i < |trace| - 1 ==> Next(trace[i], trace[i + 1])
  }

  /** In every interleaving at most two clients are accepted after stop has returned. */
  lemma {:induction false} AtMostTwoLateClients(trace: seq<State>)
    requires IsRun(trace)
    ensures Inv(trace[|trace| - 1]) && trace[|trace| - 1].late <= 2
    decreases |trace|
  {
    if |trace| > 1 {
      AtMostTwoLateClients(trace[..|trace| - 1]);
      InvIsInductive(trace[|trace| - 2], trace[|trace| - 1]);
    }
  }

  // -------- the end

  /** How far run is from its end once stop has returned. */
  function Distance(s: State): nat {
    match s.run
    case Exited => 0
    case Testing => if s.running then 21 else 1
    case Waiting => 20
    case Entering => 22
    case _ =>
      var base := if StopPipe in Left(s.run) then 2 else 22;
      base + 3 * |Left(s.run)| + if s.run.Batch? then 1 else if s.run.Handling? then 2 else 0
  }

  lemma ShortBatch(events: seq<Fd>)
    requires NoTwice(events)
    ensures |events| <= 2
  {
    if |events| > 2 {
      TwoKinds(events[0], events[1], events[2]);
    }
  }

  lemma TwoKinds(a: Fd, b: Fd, c: Fd)
    ensures a == b || b == c || a == c
  {
  }

  /** Once stop has returned, every step of run, except one that a signal caused, brings it nearer to its
      end: stop is never lost, even when run has overwritten the cleared flag. */
  lemma EveryStepComesNearer(s: State, t: State)
    requires Inv(s) && s.stop.Returned? && RunSteps(s, t)
    ensures t.stop.Returned? && Inv(t) && Distance(t) < Distance(s)
  {
    InvIsInductive(s, t);
    ShortBatch(Left(t.run));
    if s.run.Batch? && s.run.events != [] {
      TakenOrNot(s.run.events);
    }
  }

  ghost predicate CanGoOn(s: State) {
    exists t :: RunSteps(s, t)
  }

  /** Until it has exited, run can always take such a step. */
  lemma RunIsNeverBlocked(s: State)
    requires Inv(s) && s.stop.Returned? && !s.run.Exited?
    ensures CanGoOn(s)
  {
    match s.run
    case Entering => assert RunSteps(s, s.(running := true, run := Testing));
    case Testing => assert RunSteps(s, s.(run := if s.running then Waiting else Exited));
    case Waiting =>
      assert Reported(s, [StopPipe]);
      assert RunSteps(s, s.(run := Batch([StopPipe])));
    case Batch(events) =>
      assert RunSteps(s, s.(run := if events == [] || !s.running then Testing else Taking(events[0], events[1..])));
    case Taking(fd, events) =>
      assert RunSteps(s, if fd == StopPipe then s.(running := false, run := Testing) else s.(run := Batch(events)));
    case Handling(events) => assert RunSteps(s, s.(run := Batch(events)));
  }

  lemma UndisturbedGoesOn(s: State)
    requires Undisturbed(s) && !s.run.Exited?
    ensures CanGoOn(s)
  {
    match s.run
    case Entering => assert RunSteps(s, s.(running := true, run := Testing));
    case Testing => assert RunSteps(s, s.(run := Waiting));
    case Waiting =>
      assert Reported(s, []);
      assert RunSteps(s, s.(run := Batch([])));
    case Batch(events) =>
      assert RunSteps(s, s.(run := if events == [] then Testing else Taking(events[0], events[1..])));
    case Taking(fd, events) =>
      assert fd in Left(s.run);
      assert RunSteps(s, s.(run := Batch(events)));
    case Handling(events) => assert RunSteps(s, s.(run := Batch(events)));
  }

  /** How many waits of a trace were ended by a signal. */
  function Interrupts(trace: seq<State>): nat {
    if |trace| < 2 then 0
    else Interrupts(trace[..|trace| - 1])
         + if Interrupted(trace[|trace| - 2], trace[|trace| - 1]) then 1 else 0
  }

  ghost predicate Follows(trace: seq<State>) {
    trace != [] && forall i :: 0 <= i < |trace| - 1 ==> Next(trace[i], trace[i + 1])
  }

  lemma InterruptCostsOne(s: State, t: State)
    requires Inv(s) && s.stop.Returned? && Interrupted(s, t)
    ensures Inv(t) && t.stop.Returned? && Distance(t) <= Distance(s) + 1
  {
    InvIsInductive(s, t);
  }

  lemma {:induction false} StepsAreCounted(trace: seq<State>)
    requires Follows(trace) && Inv(trace[0]) && trace[0].stop.Returned?
    ensures var last := trace[|trace| - 1];
            && Inv(last) && last.stop.Returned?
            && |trace| - 1 + Distance(last) <= Distance(trace[0]) + 2 * Interrupts(trace)
    decreases |trace|
  {
    if |trace| > 1 {
      var s, t := trace[|trace| - 2], trace[|trace| - 1];
      StepsAreCounted(trace[..|trace| - 1]);
      if Interrupted(s, t) {
        InterruptCostsOne(s, t);
      } else {
        EveryStepComesNearer(s, t);
      }
    }
  }

  lemma DistanceIsBounded(s: State)
    requires Inv(s)
    ensures Distance(s) <= 30
  {
    ShortBatch(Left(s.run));
  }

  /** Once stop has returned the loop makes at most 30 more steps and two for every signal that interrupts
      it, however the steps go on, and only at its end is there no further step for it. */
  lemma RunEnds(trace: seq<State>)
    requires Follows(trace) && Inv(trace[0]) && trace[0].stop.Returned?
    ensures |trace| - 1 <= 30 + 2 * Interrupts(trace)
    ensures trace[|trace| - 1].run.Exited? || CanGoOn(trace[|trace| - 1])
  {
    StepsAreCounted(trace);
    DistanceIsBounded(trace[0]);
    if !trace[|trace| - 1].run.Exited? {
      RunIsNeverBlocked(trace[|trace| - 1]);
    }
  }

  // -------- until stop is called

  /** A signal ends the wait and nothing else: the loop is not left, and unless the flag was cleared meanwhile
      its next step takes it back to the very state in which it was waiting. */
  lemma AnInterruptedWaitIsResumed(s: State, t: State)
    requires Interrupted(s, t)
    ensures !t.run.Exited? && !WaitFailed(s, t)
    ensures s.running ==> RunSteps(t, s) && forall u :: RunSteps(t, u) ==> u == s
  {
    if s.running {
      forall u | RunSteps(t, u) ensures u == s {
      }
    }
  }

  /** What holds until stop is called: the pipe is empty, nobody is late, the flag is set once run has entered,
      and no batch tells of the pipe. */
  predicate Undisturbed(s: State) {
    && s.stop.NotCalled? && !s.pipe && s.late == 0
    && (s.running <==> !s.run.Entering?)
    && StopPipe !in Left(s.run)
  }

  lemma UndisturbedStep(s: State, t: State)
    requires Next(s, t) && Undisturbed(s) && t.stop.NotCalled?
    ensures Undisturbed(t)
    ensures t.run.Exited? ==> WaitFailed(s, t)
  {
    if s.run.Batch? && s.run.events != [] {
      TakenOrNot(s.run.events);
    }
  }

  lemma {:induction false} StopIsCalledOnce(trace: seq<State>, k: nat)
    requires Follows(trace) && k < |trace| && trace[|trace| - 1].stop.NotCalled?
    ensures trace[k].stop.NotCalled?
    decreases |trace| - k
  {
    if k < |trace| - 1 {
      StopIsCalledOnce(trace, k + 1);
      assert Next(trace[k], trace[k + 1]);
    }
  }

  /** As long as stop has not been called, the server runs on: whatever signals and clients come, the flag stays
      set, the loop ends only with a wait that failed, and otherwise run can go on. */
  lemma {:induction false} OnlyAFailedWaitEndsRun(trace: seq<State>)
    requires IsRun(trace) && trace[|trace| - 1].stop.NotCalled?
    ensures Undisturbed(trace[|trace| - 1])
    ensures trace[|trace| - 1].run.Exited? ==>
      |trace| > 1 && WaitFailed(trace[|trace| - 2], trace[|trace| - 1])
    ensures trace[|trace| - 1].run.Exited? || CanGoOn(trace[|trace| - 1])
    decreases |trace|
  {
    var last := trace[|trace| - 1];
    if |trace| > 1 {
      var before := trace[..|trace| - 1];
      StopIsCalledOnce(trace, |trace| - 2);
      OnlyAFailedWaitEndsRun(before);
      UndisturbedStep(trace[|trace| - 2], last);
    }
    if !last.run.Exited? {
      UndisturbedGoesOn(last);
    }
  }

  // -------- a stop that is called in time

  /** Run has set the flag, and once stop has cleared it the flag stays down: no further entry is taken, so the
      client of an entry that had been taken before is the only one that can be late. */
  predicate InTime(s: State) {
    && !s.run.Entering?
    && (s.stop.NotCalled? || s.stop.Cleared? || s.stop.Written? ==> s.late == 0)
    && (!s.stop.NotCalled? ==> !s.running && s.late + (if s.run.Taking? then 1 else 0) <= 1)
  }

  lemma InTimeIsInductive(s: State, t: State)
    requires InTime(s) && Next(s, t)
    ensures InTime(t)
  {
  }

  lemma {:induction false} NobodyIsLateYet(trace: seq<State>, k: nat)
    requires IsRun(trace) && k < |trace| && !trace[k].stop.Returned?
    ensures trace[k].late == 0
    decreases k
  {
    if k > 0 {
      assert Next(trace[k - 1], trace[k]);
      NobodyIsLateYet(trace, k - 1);
    }
  }

  /** When run has set the flag before stop is called, at most one client is accepted after stop has returned. */
  lemma {:induction false} AtMostOneLateClient(trace: seq<State>, k: nat)
    requires IsRun(trace) && k < |trace| && trace[k].stop.NotCalled? && !trace[k].run.Entering?
    ensures InTime(trace[|trace| - 1]) && trace[|trace| - 1].late <= 1
    decreases |trace|
  {
    if k == |trace| - 1 {
      NobodyIsLateYet(trace, k);
    } else {
      AtMostOneLateClient(trace[..|trace| - 1], k);
      InTimeIsInductive(trace[|trace| - 2], trace[|trace| - 1]);
    }
  }

  // -------- the bound is sharp

  /** The run in which the flag is overwritten and two clients still get in. */
  const WORST: seq<State> := [
    START,
    State(false, false, Entering, Cleared, 0),
    State(true, false, Testing, Cleared, 0),
    State(true, false, Waiting, Cleared, 0),
    State(true, false, Batch([ListenFd]), Cleared, 0),
    State(true, true, Batch([ListenFd]), Written, 0),
    State(true, true, Batch([ListenFd]), Returned, 0),
    State(true, true, Taking(ListenFd, []), Returned, 0),
    State(true, true, Handling([]), Returned, 1),
    State(true, true, Batch([]), Returned, 1),
    State(true, true, Testing, Returned, 1),
    State(true, true, Waiting, Returned, 1),
    State(true, true, Batch([ListenFd, StopPipe]), Returned, 1),
    State(true, true, Taking(ListenFd, [StopPipe]), Returned, 1),
    State(true, true, Handling([StopPipe]), Returned, 2)]

  lemma TwoLateClientsArePossible()
    ensures IsRun(WORST) && WORST[|WORST| - 1].late == 2
  {
    assert [ListenFd][1..] == [] && [ListenFd, StopPipe][1..] == [StopPipe];
    assert Reported(WORST[3], [ListenFd]);
    assert Reported(WORST[11], [ListenFd, StopPipe]);
    forall i | 0 <= i < |WORST| - 1 ensures Next(WORST[i], WORST[i + 1]) {
    }
  }
}
