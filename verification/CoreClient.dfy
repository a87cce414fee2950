/** gateway/src/grpc/core_client.rs: one RPC in flight per code, shared by all who ask for it. */
module CoreClient {
  import opened Counts

  /** What the RPC came back with: a response, or a status code (a timeout is one). */
  datatype Reply = Response(target: string) | Status(code: nat)

  /** The spawned task, step by step. `Returned` still holds its permit. `Dead` is a task that ended without
      publishing; its sender is dropped. */
  datatype Phase =
    | Queued
    | Calling
    | Returned(reply: Reply)
    | Released(reply: Reply)
    | Published
    | Finished
    | Dead

  /** A flight is a task with its watch channel; `value` is what the channel holds. */
  datatype Flight = Flight(code: string, phase: Phase, value: Option<Reply>)

  datatype Wait = Waiting | Failing | Answered(reply: Reply) | Unavailable | Cancelled

  datatype Waiter = Waiter(code: string, flight: nat, wait: Wait)

  /** Flights are numbered as their channels are created; `inFlight` maps a code to the channel it points to. */
  datatype State = State(inFlight: map<string, nat>, flights: seq<Flight>, waiters: seq<Waiter>, available: nat)

  datatype Step =
    | Get(code: string)
    | Acquire(i: nat)
    | Return(i: nat, reply: Reply)
    | Release(i: nat)
    | Publish(i: nat)
    | Remove(i: nat)
    | Die(i: nat)
    | Answer(w: nat)
    | SeeDeath(w: nat)
    | GiveUp(w: nat)
    | Cancel(w: nat)

  predicate Live(phase: Phase) {
    phase.Queued? || phase.Calling? || phase.Returned? || phase.Released?
  }

  predicate Holds(phase: Phase) {
    phase.Calling? || phase.Returned?
  }

  predicate Enabled(s: State, step: Step) {
    match step
    case Get(_) => true
    case Acquire(i) => i < |s.flights| && s.flights[i].phase.Queued? && s.available > 0
    case Return(i, _) => i < |s.flights| && s.flights[i].phase.Calling?
    case Release(i) => i < |s.flights| && s.flights[i].phase.Returned?
    case Publish(i) => i < |s.flights| && s.flights[i].phase.Released?
    case Remove(i) => i < |s.flights| && s.flights[i].phase.Published?
    case Die(i) => i < |s.flights| && Live(s.flights[i].phase)
    case Answer(w) => w < |s.waiters| && s.waiters[w].wait.Waiting? && s.waiters[w].flight < |s.flights|
        && s.flights[s.waiters[w].flight].value.Some?
    case SeeDeath(w) => w < |s.waiters| && s.waiters[w].wait.Waiting? && s.waiters[w].flight < |s.flights|
        && s.flights[s.waiters[w].flight].phase.Dead? && s.flights[s.waiters[w].flight].value.None?
    case GiveUp(w) => w < |s.waiters| && s.waiters[w].wait.Failing?
    case Cancel(w) => w < |s.waiters| && s.waiters[w].wait.Waiting?
  }

  // remove_if(code, same_channel)
  function RemoveIf(inFlight: map<string, nat>, code: string, channel: nat): map<string, nat> {
    if code in inFlight && inFlight[code] == channel then inFlight - {code} else inFlight
  }

  function Phased(s: State, i: nat, phase: Phase): State
    requires i < |s.flights|
  {
    s.(flights := s.flights[i := s.flights[i].(phase := phase)])
  }

  function Waited(s: State, w: nat, wait: Wait): State
    requires w < |s.waiters|
  {
    s.(waiters := s.waiters[w := s.waiters[w].(wait := wait)])
  }

  function Joined(s: State, code: string): State {
    if code in s.inFlight then
      s.(waiters := s.waiters + [Waiter(code, s.inFlight[code], Waiting)])
    else
      var channel := |s.flights|;
      s.(inFlight := s.inFlight[code := channel],
         flights := s.flights + [Flight(code, Queued, None)],
         waiters := s.waiters + [Waiter(code, channel, Waiting)])
  }

  function Next(s: State, step: Step): State {
    if !Enabled(s, step) then s
    else
      match step
      case Get(code) => Joined(s, code)
      case Acquire(i) => Phased(s, i, Calling).(available := s.available - 1)
      case Return(i, reply) => Phased(s, i, Returned(reply))
      case Release(i) => Phased(s, i, Released(s.flights[i].phase.reply)).(available := s.available + 1)
      case Publish(i) =>
        s.(flights := s.flights[i := s.flights[i].(phase := Published, value := Some(s.flights[i].phase.reply))])
      case Remove(i) => Phased(s, i, Finished).(inFlight := RemoveIf(s.inFlight, s.flights[i].code, i))
      case Die(i) => Phased(s, i, Dead).(available := s.available + if Holds(s.flights[i].phase) then 1 else 0)
      case Answer(w) => Waited(s, w, Answered(s.flights[s.waiters[w].flight].value.value))
      case SeeDeath(w) => Waited(s, w, Failing)
      case GiveUp(w) =>
        Waited(s, w, Unavailable).(inFlight := RemoveIf(s.inFlight, s.waiters[w].code, s.waiters[w].flight))
      case Cancel(w) => Waited(s, w, Cancelled)
  }

  function Run(s: State, steps: seq<Step>): State {
    if steps == [] then s else Next(Run(s, steps[..|steps| - 1]), steps[|steps| - 1])
  }

  function Init(limit: nat): State {
    State(map[], [], [], limit)
  }

  // ---- Invariant ----------------------------------------------------------------------------------------

  /** A live flight is the one its code's entry points to; a channel has a value exactly once published. */
  ghost predicate FlightOk(s: State, i: nat)
    requires i < |s.flights|
  {
    var flight := s.flights[i];
    && (Live(flight.phase) ==> flight.code in s.inFlight && s.inFlight[flight.code] == i)
    && (flight.value.Some? <==> flight.phase.Published? || flight.phase.Finished?)
  }

  /** An entry points to a flight for its own code that has not removed it yet. */
  ghost predicate EntryOk(s: State, code: string)
    requires code in s.inFlight
  {
    var i := s.inFlight[code];
    i < |s.flights| && s.flights[i].code == code && !s.flights[i].phase.Finished?
  }

  /** A waiter joined a flight for its code; an answer is that flight's value; failure means the flight died, and
      once it was reported the dead flight's entry is gone. */
  ghost predicate WaiterOk(s: State, w: nat)
    requires w < |s.waiters|
  {
    var waiter := s.waiters[w];
    && waiter.flight < |s.flights|
    && s.flights[waiter.flight].code == waiter.code
    && (waiter.wait.Answered? ==> s.flights[waiter.flight].value == Some(waiter.wait.reply))
    && (waiter.wait.Failing? || waiter.wait.Unavailable? ==> s.flights[waiter.flight].phase.Dead?)
    && (waiter.wait.Unavailable? ==> !(waiter.code in s.inFlight && s.inFlight[waiter.code] == waiter.flight))
  }

  function Holders(flights: seq<Flight>): nat {
    if flights == [] then 0
    else Holders(flights[..|flights| - 1]) + if Holds(flights[|flights| - 1].phase) then 1 else 0
  }

  ghost predicate Inv(s: State, limit: nat) {
    && (forall i: nat :: i < |s.flights| ==> FlightOk(s, i))
    && (forall code :: code in s.inFlight ==> EntryOk(s, code))
    && (forall w: nat :: w < |s.waiters| ==> WaiterOk(s, w))
    && s.available + Holders(s.flights) == limit
  }

  lemma {:induction false} HoldersUpdate(flights: seq<Flight>, i: nat, flight: Flight)
    requires i < |flights|
    ensures Holders(flights[i := flight])
      == Holders(flights) - (if Holds(flights[i].phase) then 1 else 0) + if Holds(flight.phase) then 1 else 0
    decreases |flights|
  {
    var n := |flights| - 1;
    var after := flights[i := flight];
    if i < n {
      HoldersUpdate(flights[..n], i, flight);
      assert after[..n] == flights[..n][i := flight];
    } else {
      assert after[..n] == flights[..n];
    }
  }

  lemma HoldersMore(flights: seq<Flight>, flight: Flight)
    ensures Holders(flights + [flight]) == Holders(flights) + if Holds(flight.phase) then 1 else 0
  {
    assert (flights + [flight])[..|flights|] == flights;
  }

  lemma HoldersNext(s: State, step: Step)
    ensures Next(s, step).available + Holders(Next(s, step).flights) == s.available + Holders(s.flights)
  {
    if Enabled(s, step) {
      match step
      case Get(code) => HoldersMore(s.flights, Flight(code, Queued, None));
      case Acquire(i) => HoldersUpdate(s.flights, i, s.flights[i].(phase := Calling));
      case Return(i, reply) => HoldersUpdate(s.flights, i, s.flights[i].(phase := Returned(reply)));
      case Release(i) => HoldersUpdate(s.flights, i, s.flights[i].(phase := Released(s.flights[i].phase.reply)));
      case Publish(i) =>
        HoldersUpdate(s.flights, i, s.flights[i].(phase := Published, value := Some(s.flights[i].phase.reply)));
      case Remove(i) => HoldersUpdate(s.flights, i, s.flights[i].(phase := Finished));
      case Die(i) => HoldersUpdate(s.flights, i, s.flights[i].(phase := Dead));
      case _ =>
    }
  }

  lemma NextKeepsFlight(s: State, step: Step, limit: nat, i: nat)
    requires Inv(s, limit) && i < |Next(s, step).flights|
    ensures FlightOk(Next(s, step), i)
  {
    if i < |s.flights| { assert FlightOk(s, i); }
    if step.Get? && step.code in s.inFlight { assert EntryOk(s, step.code); }
    if step.GiveUp? && step.w < |s.waiters| { assert WaiterOk(s, step.w); }
  }

  lemma NextKeepsEntry(s: State, step: Step, limit: nat, code: string)
    requires Inv(s, limit) && code in Next(s, step).inFlight
    ensures EntryOk(Next(s, step), code)
  {
    if code in s.inFlight { assert EntryOk(s, code); }
  }

  lemma NextKeepsWaiter(s: State, step: Step, limit: nat, w: nat)
    requires Inv(s, limit) && w < |Next(s, step).waiters|
    ensures WaiterOk(Next(s, step), w)
  {
    if w < |s.waiters| {
      assert WaiterOk(s, w) && FlightOk(s, s.waiters[w].flight);
    }
    if step.Get? && step.code in s.inFlight { assert EntryOk(s, step.code); }
  }

  lemma NextKeepsInv(s: State, step: Step, limit: nat)
    requires Inv(s, limit)
    ensures Inv(Next(s, step), limit)
  {
    var next := Next(s, step);
    HoldersNext(s, step);
    forall i: nat | i < |next.flights|
      ensures FlightOk(next, i)
    {
      NextKeepsFlight(s, step, limit, i);
    }
    forall code | code in next.inFlight
      ensures EntryOk(next, code)
    {
      NextKeepsEntry(s, step, limit, code);
    }
    forall w: nat | w < |next.waiters|
      ensures WaiterOk(next, w)
    {
      NextKeepsWaiter(s, step, limit, w);
    }
  }

  lemma {:induction false} RunKeepsInv(limit: nat, steps: seq<Step>)
    ensures Inv(Run(Init(limit), steps), limit)
    decreases |steps|
  {
    if steps != [] {
      RunKeepsInv(limit, steps[..|steps| - 1]);
      NextKeepsInv(Run(Init(limit), steps[..|steps| - 1]), steps[|steps| - 1], limit);
    }
  }

  // ---- Safety in every reachable state ------------------------------------------------------------------

  /** At most one unpublished live flight per code, after any joins, cancellations, completions and crashes. */
  lemma OneFlightPerCode(limit: nat, steps: seq<Step>, i: nat, j: nat)
    requires var s := Run(Init(limit), steps);
      i < |s.flights| && j < |s.flights| && Live(s.flights[i].phase) && Live(s.flights[j].phase)
      && s.flights[i].code == s.flights[j].code
    ensures i == j
  {
    RunKeepsInv(limit, steps);
    var s := Run(Init(limit), steps);
    assert FlightOk(s, i) && FlightOk(s, j);
  }

  /** Every answer is the value published by a flight for the waiter's own code, the same for all who joined it;
      "unavailable" is reported only for a flight that died unpublished. */
  lemma WaitersAnsweredRight(limit: nat, steps: seq<Step>, v: nat, w: nat)
    requires var s := Run(Init(limit), steps); v < |s.waiters| && w < |s.waiters|
    ensures var s := Run(Init(limit), steps);
      var flight := s.waiters[w].flight;
      && flight < |s.flights| && s.flights[flight].code == s.waiters[w].code
      && (s.waiters[w].wait.Answered? ==> s.flights[flight].value == Some(s.waiters[w].wait.reply))
      && (s.waiters[w].wait.Unavailable? ==> s.flights[flight].phase.Dead? && s.flights[flight].value.None?)
      && (s.waiters[v].flight == flight && s.waiters[v].wait.Answered? && s.waiters[w].wait.Answered? ==>
           s.waiters[v].wait == s.waiters[w].wait)
  {
    RunKeepsInv(limit, steps);
    var s := Run(Init(limit), steps);
    assert WaiterOk(s, v) && WaiterOk(s, w) && FlightOk(s, s.waiters[w].flight);
  }

  /** A channel's value is written at most once, and an answered waiter keeps its answer. */
  lemma ValuesNeverChange(s: State, step: Step, limit: nat)
    requires Inv(s, limit)
    ensures var next := Next(s, step);
      && |s.flights| <= |next.flights| && |s.waiters| <= |next.waiters|
      && (forall i :: 0 <= i < |s.flights| ==> next.flights[i].code == s.flights[i].code)
      && (forall i :: 0 <= i < |s.flights| && s.flights[i].value.Some? ==> next.flights[i].value == s.flights[i].value)
      && (forall w :: 0 <= w < |s.waiters| ==>
           next.waiters[w].flight == s.waiters[w].flight
           && (s.waiters[w].wait.Answered? ==> next.waiters[w] == s.waiters[w]))
  {
    assert step.Publish? && step.i < |s.flights| ==> FlightOk(s, step.i);
  }

  predicate TaskStep(step: Step) {
    step.Acquire? || step.Return? || step.Release? || step.Publish? || step.Remove? || step.Die?
  }

  predicate SameTasks(s: State, t: State) {
    s.flights == t.flights && s.inFlight == t.inFlight && s.available == t.available
  }

  lemma {:induction false} TasksIgnoreWaiters(s: State, t: State, steps: seq<Step>)
    requires SameTasks(s, t) && forall step :: step in steps ==> TaskStep(step)
    ensures SameTasks(Run(s, steps), Run(t, steps))
    decreases |steps|
  {
    if steps != [] {
      assert steps[|steps| - 1] in steps;
      TasksIgnoreWaiters(s, t, steps[..|steps| - 1]);
    }
  }

  function AfterCancels(waiter: Waiter, w: nat, cancels: seq<Step>): Waiter {
    if Cancel(w) in cancels && waiter.wait.Waiting? then waiter.(wait := Cancelled) else waiter
  }

  lemma {:induction false} CancelsKeepTasks(s: State, cancels: seq<Step>)
    requires forall step :: step in cancels ==> step.Cancel?
    ensures SameTasks(Run(s, cancels), s) && |Run(s, cancels).waiters| == |s.waiters|
    ensures forall w :: 0 <= w < |s.waiters| ==> Run(s, cancels).waiters[w] == AfterCancels(s.waiters[w], w, cancels)
    decreases |cancels|
  {
    if cancels != [] {
      var n := |cancels| - 1;
      assert cancels[n] in cancels;
      CancelsKeepTasks(s, cancels[..n]);
      assert cancels == cancels[..n] + [cancels[n]];
    }
  }

  /** Cancelling any set of waiters changes no flight, no entry and no permit, then or later: whatever the tasks go on
      to do, they do as if nobody had left. And it changes no other waiter. */
  lemma CancelTouchesNoFlight(s: State, cancels: seq<Step>, steps: seq<Step>)
    requires (forall step :: step in cancels ==> step.Cancel?) && forall step :: step in steps ==> TaskStep(step)
    ensures SameTasks(Run(Run(s, cancels), steps), Run(s, steps))
    ensures |Run(s, cancels).waiters| == |s.waiters|
    ensures forall w :: 0 <= w < |s.waiters| && Cancel(w) !in cancels ==> Run(s, cancels).waiters[w] == s.waiters[w]
  {
    CancelsKeepTasks(s, cancels);
    TasksIgnoreWaiters(Run(s, cancels), s, steps);
  }

  /** A finished task removes its own entry or none, a failed waiter that of the flight it joined or none, and the
      map changes in no other way except that a new flight's channel is inserted, once, when it is created. */
  lemma RemovalIsGuarded(s: State, step: Step, limit: nat, code: string)
    requires Inv(s, limit)
    ensures var next := Next(s, step);
      && (code in next.inFlight && !(code in s.inFlight && s.inFlight[code] == next.inFlight[code]) ==>
           step == Get(code) && next.inFlight[code] == |s.flights|)
      && (code in s.inFlight && code !in next.inFlight ==>
           || (step == Remove(s.inFlight[code]) && s.flights[s.inFlight[code]].phase.Published?)
           || (step.GiveUp? && step.w < |s.waiters| && s.waiters[step.w].flight == s.inFlight[code]
               && s.flights[s.inFlight[code]].phase.Dead?))
  {
    if code in s.inFlight { assert EntryOk(s, code); }
    if step.GiveUp? && step.w < |s.waiters| { assert WaiterOk(s, step.w); }
  }

  /** When every task has finished normally the map is empty; after crashes, what is left points to dead flights
      whose waiters were all cancelled. */
  lemma WhatStaysInTheMap(limit: nat, steps: seq<Step>, code: string)
    requires var s := Run(Init(limit), steps);
      && code in s.inFlight
      && (forall i :: 0 <= i < |s.flights| ==> s.flights[i].phase.Finished? || s.flights[i].phase.Dead?)
      && (forall w :: 0 <= w < |s.waiters| ==> !s.waiters[w].wait.Waiting? && !s.waiters[w].wait.Failing?)
    ensures var s := Run(Init(limit), steps);
      && s.inFlight[code] < |s.flights| && s.flights[s.inFlight[code]].phase.Dead?
      && forall w :: 0 <= w < |s.waiters| && s.waiters[w].flight == s.inFlight[code] ==> s.waiters[w].wait.Cancelled?
  {
    RunKeepsInv(limit, steps);
    var s := Run(Init(limit), steps);
    assert EntryOk(s, code) && FlightOk(s, s.inFlight[code]);
    forall w: nat | w < |s.waiters| && s.waiters[w].flight == s.inFlight[code]
      ensures s.waiters[w].wait.Cancelled?
    {
      assert WaiterOk(s, w);
    }
  }

  predicate DeadEntry(s: State, code: string) {
    code in s.inFlight && s.inFlight[code] < |s.flights| && s.flights[s.inFlight[code]].phase.Dead?
  }

  /** A request joins a dead flight exactly when its code's entry points to one; otherwise its flight is live or its
      channel already has a value. */
  lemma RequestJoins(s: State, limit: nat, code: string)
    requires Inv(s, limit)
    ensures var next, w := Next(s, Get(code)), |s.waiters|;
      && |next.waiters| == w + 1 && next.waiters[w].code == code && next.waiters[w].wait == Waiting
      && next.waiters[w].flight < |next.flights|
      && var flight := next.flights[next.waiters[w].flight];
      flight.code == code && (flight.phase.Dead? <==> DeadEntry(s, code))
      && (DeadEntry(s, code) || Live(flight.phase) || flight.value.Some?)
  {
    if code in s.inFlight { assert EntryOk(s, code) && FlightOk(s, s.inFlight[code]); }
  }

  predicate JoinedDead(s: State, w: nat) {
    w < |s.waiters| && s.waiters[w].flight < |s.flights| && s.flights[s.waiters[w].flight].phase.Dead?
  }

  predicate AnsweredAt(s: State, w: nat) {
    w < |s.waiters| && s.waiters[w].wait.Answered?
  }

  predicate AnswersAfter(s: State, steps: seq<Step>, w: nat) {
    AnsweredAt(Run(s, steps), w)
  }

  ghost predicate Answerable(s: State, w: nat) {
    exists steps :: AnswersAfter(s, steps, w)
  }

  lemma DeadStaysDead(s: State, step: Step, limit: nat, w: nat)
    requires Inv(s, limit) && JoinedDead(s, w)
    ensures JoinedDead(Next(s, step), w)
  {
  }

  lemma DeadIsNoAnswer(s: State, limit: nat, w: nat)
    requires Inv(s, limit) && JoinedDead(s, w)
    ensures !AnsweredAt(s, w)
  {
    assert WaiterOk(s, w) && FlightOk(s, s.waiters[w].flight);
  }

  lemma {:induction false} DeadFlightNeverAnswers(s: State, steps: seq<Step>, limit: nat, w: nat)
    requires Inv(s, limit) && JoinedDead(s, w)
    ensures JoinedDead(Run(s, steps), w) && !AnsweredAt(Run(s, steps), w) && Inv(Run(s, steps), limit)
    decreases |steps|
  {
    if steps != [] {
      var before, last := Run(s, steps[..|steps| - 1]), steps[|steps| - 1];
      DeadFlightNeverAnswers(s, steps[..|steps| - 1], limit, w);
      NextKeepsInv(before, last, limit);
      DeadStaysDead(before, last, limit, w);
    }
    DeadIsNoAnswer(Run(s, steps), limit, w);
  }

  // ---- Progress -----------------------------------------------------------------------------------------

  function PhaseWeight(phase: Phase): nat {
    match phase
    case Queued => 5
    case Calling => 4
    case Returned(_) => 3
    case Released(_) => 2
    case Published => 1
    case Finished => 0
    case Dead => 0
  }

  function WaitWeight(wait: Wait): nat {
    if wait.Waiting? then 2 else if wait.Failing? then 1 else 0
  }

  function FlightsWeight(flights: seq<Flight>): nat {
    if flights == [] then 0
    else FlightsWeight(flights[..|flights| - 1]) + PhaseWeight(flights[|flights| - 1].phase)
  }

  function WaitersWeight(waiters: seq<Waiter>): nat {
    if waiters == [] then 0
    else WaitersWeight(waiters[..|waiters| - 1]) + WaitWeight(waiters[|waiters| - 1].wait)
  }

  function Measure(s: State): nat {
    FlightsWeight(s.flights) + WaitersWeight(s.waiters)
  }

  lemma {:induction false} FlightsWeightUpdate(flights: seq<Flight>, i: nat, flight: Flight)
    requires i < |flights|
    ensures FlightsWeight(flights[i := flight])
      == FlightsWeight(flights) - PhaseWeight(flights[i].phase) + PhaseWeight(flight.phase)
    decreases |flights|
  {
    var n := |flights| - 1;
    var after := flights[i := flight];
    if i < n {
      FlightsWeightUpdate(flights[..n], i, flight);
      assert after[..n] == flights[..n][i := flight];
    } else {
      assert after[..n] == flights[..n];
    }
  }

  lemma {:induction false} WaitersWeightUpdate(waiters: seq<Waiter>, w: nat, waiter: Waiter)
    requires w < |waiters|
    ensures WaitersWeight(waiters[w := waiter])
      == WaitersWeight(waiters) - WaitWeight(waiters[w].wait) + WaitWeight(waiter.wait)
    decreases |waiters|
  {
    var n := |waiters| - 1;
    var after := waiters[w := waiter];
    if w < n {
      WaitersWeightUpdate(waiters[..n], w, waiter);
      assert after[..n] == waiters[..n][w := waiter];
    } else {
      assert after[..n] == waiters[..n];
    }
  }

  /** Every step that is not a new request lowers the measure. */
  lemma StepLowersMeasure(s: State, step: Step)
    requires Enabled(s, step) && !step.Get?
    ensures Measure(Next(s, step)) < Measure(s)
  {
    var next := Next(s, step);
    match step
    case Acquire(i) => FlightsWeightUpdate(s.flights, i, next.flights[i]);
    case Return(i, _) => FlightsWeightUpdate(s.flights, i, next.flights[i]);
    case Release(i) => FlightsWeightUpdate(s.flights, i, next.flights[i]);
    case Publish(i) => FlightsWeightUpdate(s.flights, i, next.flights[i]);
    case Remove(i) => FlightsWeightUpdate(s.flights, i, next.flights[i]);
    case Die(i) => FlightsWeightUpdate(s.flights, i, next.flights[i]);
    case Answer(w) => WaitersWeightUpdate(s.waiters, w, next.waiters[w]);
    case SeeDeath(w) => WaitersWeightUpdate(s.waiters, w, next.waiters[w]);
    case GiveUp(w) => WaitersWeightUpdate(s.waiters, w, next.waiters[w]);
    case Cancel(w) => WaitersWeightUpdate(s.waiters, w, next.waiters[w]);
  }

  /** Steps the system takes by itself: no request, no cancellation, no crash. */
  predicate Own(step: Step) {
    !step.Get? && !step.Cancel? && !step.Die?
  }

  predicate Unanswered(s: State, w: nat) {
    w < |s.waiters| && (s.waiters[w].wait.Waiting? || s.waiters[w].wait.Failing?)
  }

  lemma {:induction false} SomeHolder(flights: seq<Flight>) returns (i: nat)
    requires Holders(flights) > 0
    ensures i < |flights| && Holds(flights[i].phase)
    decreases |flights|
  {
    var n := |flights| - 1;
    if Holds(flights[n].phase) { i := n; } else { i := SomeHolder(flights[..n]); }
  }

  /** With at least one permit, as long as a waiter is unanswered the system has a step of its own to take. */
  lemma NoDeadlock(s: State, limit: nat, w: nat) returns (step: Step)
    requires Inv(s, limit) && limit > 0 && Unanswered(s, w)
    ensures Own(step) && Enabled(s, step)
  {
    assert WaiterOk(s, w);
    var i := s.waiters[w].flight;
    assert FlightOk(s, i);
    if s.waiters[w].wait.Failing? { return GiveUp(w); }
    match s.flights[i].phase
    case Queued =>
      if s.available > 0 { return Acquire(i); }
      var j := SomeHolder(s.flights);
      step := if s.flights[j].phase.Calling? then Return(j, Status(4)) else Release(j);
    case Calling => step := Return(i, Status(4));
    case Returned(_) => step := Release(i);
    case Released(_) => step := Publish(i);
    case Published => step := Answer(w);
    case Finished => step := Answer(w);
    case Dead => step := SeeDeath(w);
  }

  ghost predicate AllEnabled(s: State, steps: seq<Step>) {
    steps == [] || (AllEnabled(s, steps[..|steps| - 1]) && Enabled(Run(s, steps[..|steps| - 1]), steps[|steps| - 1])
                    && !steps[|steps| - 1].Get?)
  }

  lemma {:induction false} RunLowersMeasure(s: State, steps: seq<Step>, limit: nat)
    requires Inv(s, limit) && AllEnabled(s, steps)
    ensures |steps| + Measure(Run(s, steps)) <= Measure(s) && Inv(Run(s, steps), limit)
    decreases |steps|
  {
    if steps != [] {
      RunLowersMeasure(s, steps[..|steps| - 1], limit);
      StepLowersMeasure(Run(s, steps[..|steps| - 1]), steps[|steps| - 1]);
      NextKeepsInv(Run(s, steps[..|steps| - 1]), steps[|steps| - 1], limit);
    }
  }

  /** All waiters are answered: however the steps are scheduled, no more than `Measure` of them happen, and when the
      system has no step of its own left every waiter has an answer, was told "unavailable", or was cancelled. */
  lemma EveryWaiterAnswered(s: State, steps: seq<Step>, limit: nat, w: nat)
    requires Inv(s, limit) && limit > 0 && AllEnabled(s, steps)
    requires forall step :: Own(step) ==> !Enabled(Run(s, steps), step)
    ensures |steps| <= Measure(s) && !Unanswered(Run(s, steps), w)
  {
    RunLowersMeasure(s, steps, limit);
    if Unanswered(Run(s, steps), w) {
      var step := NoDeadlock(Run(s, steps), limit, w);
      assert false;
    }
  }

  lemma {:induction false} RunFrom(s: State, step: Step, steps: seq<Step>)
    ensures Run(s, [step] + steps) == Run(Next(s, step), steps)
    decreases |steps|
  {
    var all := [step] + steps;
    if steps == [] {
      assert all[..0] == [] && all == [step];
      assert Run(s, all[..0]) == s;
    } else {
      assert all[..|all| - 1] == [step] + steps[..|steps| - 1];
      RunFrom(s, step, steps[..|steps| - 1]);
    }
  }

  lemma OwnStepKeepsWaiting(s: State, step: Step, w: nat)
    requires Own(step) && step != Answer(w) && w < |s.waiters| && s.waiters[w].wait.Waiting?
    requires s.waiters[w].flight < |s.flights| && !s.flights[s.waiters[w].flight].phase.Dead?
    ensures var next := Next(s, step);
      && w < |next.waiters| && next.waiters[w] == s.waiters[w]
      && s.waiters[w].flight < |next.flights| && !next.flights[s.waiters[w].flight].phase.Dead?
  {
  }

  // A waiter whose flight has not died can still be answered: the system only has to go on by itself.
  lemma {:induction false} CanBeAnswered(s: State, limit: nat, w: nat) returns (steps: seq<Step>)
    requires Inv(s, limit) && limit > 0 && w < |s.waiters| && s.waiters[w].wait.Waiting? && !JoinedDead(s, w)
    ensures AnsweredAt(Run(s, steps), w)
    decreases Measure(s)
  {
    assert WaiterOk(s, w);
    var step := NoDeadlock(s, limit, w);
    var next := Next(s, step);
    if step == Answer(w) {
      assert [step][..0] == [];
      return [step];
    }
    OwnStepKeepsWaiting(s, step, w);
    StepLowersMeasure(s, step);
    NextKeepsInv(s, step, limit);
    var rest := CanBeAnswered(next, limit, w);
    RunFrom(s, step, rest);
    steps := [step] + rest;
  }

  /** Exactly when a request is misled: some continuation answers it if and only if its code's entry does not point
      to a flight that has died. */
  lemma RequestAnswerableIff(s: State, limit: nat, code: string)
    requires Inv(s, limit) && limit > 0
    ensures Answerable(Next(s, Get(code)), |s.waiters|) <==> !DeadEntry(s, code)
  {
    var next, w := Next(s, Get(code)), |s.waiters|;
    RequestJoins(s, limit, code);
    NextKeepsInv(s, Get(code), limit);
    if DeadEntry(s, code) {
      forall steps | AnswersAfter(next, steps, w)
        ensures false
      {
        DeadFlightNeverAnswers(next, steps, limit, w);
      }
    } else {
      var steps := CanBeAnswered(next, limit, w);
      assert AnswersAfter(next, steps, w);
    }
  }

  function Abandoned(s: State, code: string): State {
    Next(Next(Next(s, Get(code)), Cancel(|s.waiters|)), Die(|s.flights|))
  }

  /** Such an entry comes about in every state without an entry for the code, the initial one included: its only waiter
      leaves and the task dies. */
  lemma DeadEntryHappens(s: State, limit: nat, code: string)
    requires Inv(s, limit) && code !in s.inFlight
    ensures DeadEntry(Abandoned(s, code), code) && Inv(Abandoned(s, code), limit)
  {
    var asked := Next(s, Get(code));
    NextKeepsInv(s, Get(code), limit);
    var left := Next(asked, Cancel(|s.waiters|));
    NextKeepsInv(asked, Cancel(|s.waiters|), limit);
    assert left.flights == asked.flights && left.inFlight == asked.inFlight;
    NextKeepsInv(left, Die(|s.flights|), limit);
  }

  predicate EntryIs(s: State, code: string, d: nat) {
    code in s.inFlight && s.inFlight[code] == d
  }

  // Requests for the code after `s` joined flight d, and no flight was started for it.
  ghost predicate AllJoined(s: State, t: State, code: string, d: nat) {
    && (forall w :: |s.waiters| <= w < |t.waiters| && t.waiters[w].code == code ==> t.waiters[w].flight == d)
    && (forall i :: |s.flights| <= i < |t.flights| ==> t.flights[i].code != code)
    && |s.waiters| <= |t.waiters| && |s.flights| <= |t.flights|
  }

  lemma DeadEntryStep(s: State, step: Step, limit: nat, code: string, d: nat)
    requires Inv(s, limit) && EntryIs(Next(s, step), code, d) && d < |s.flights|
    ensures EntryIs(s, code, d)
    ensures s.flights[d].phase.Dead? ==> d < |Next(s, step).flights| && Next(s, step).flights[d].phase.Dead?
    ensures AllJoined(s, Next(s, step), code, d)
  {
    RemovalIsGuarded(s, step, limit, code);
  }

  lemma {:induction false} JoinedUntilRemoval(s: State, steps: seq<Step>, limit: nat, code: string)
    requires Inv(s, limit) && DeadEntry(s, code) && EntryIs(Run(s, steps), code, s.inFlight[code])
    ensures Inv(Run(s, steps), limit) && DeadEntry(Run(s, steps), code)
    ensures AllJoined(s, Run(s, steps), code, s.inFlight[code])
    decreases |steps|
  {
    if steps != [] {
      var before, last := Run(s, steps[..|steps| - 1]), steps[|steps| - 1];
      RunKeepsInvFrom(s, steps[..|steps| - 1], limit);
      DeadEntryStep(before, last, limit, code, s.inFlight[code]);
      JoinedUntilRemoval(s, steps[..|steps| - 1], limit, code);
      NextKeepsInv(before, last, limit);
      NeverReused(before, last, code);
    }
  }

  lemma {:induction false} RunKeepsInvFrom(s: State, steps: seq<Step>, limit: nat)
    requires Inv(s, limit)
    ensures Inv(Run(s, steps), limit) && |s.flights| <= |Run(s, steps).flights|
    decreases |steps|
  {
    if steps != [] {
      RunKeepsInvFrom(s, steps[..|steps| - 1], limit);
      NextKeepsInv(Run(s, steps[..|steps| - 1]), steps[|steps| - 1], limit);
    }
  }

  // Waiters and flights keep their codes, waiters their flights.
  lemma NeverReused(s: State, step: Step, code: string)
    ensures var next := Next(s, step);
      && |s.waiters| <= |next.waiters| && |s.flights| <= |next.flights|
      && (forall w :: 0 <= w < |s.waiters| ==>
           next.waiters[w].flight == s.waiters[w].flight && next.waiters[w].code == s.waiters[w].code)
      && forall i :: 0 <= i < |s.flights| ==> next.flights[i].code == s.flights[i].code
  {
  }

  /** Every request for the code that comes before the dead flight's entry is removed, however many there are and
      whatever else happens, has no RPC of its own and is never answered: once nothing is left to do, each of them was
      told "unavailable" or cancelled. */
  lemma MisledUntilRemoval(s: State, steps: seq<Step>, more: seq<Step>, limit: nat, code: string, w: nat)
    requires Inv(s, limit) && limit > 0 && DeadEntry(s, code) && EntryIs(Run(s, steps), code, s.inFlight[code])
    requires |s.waiters| <= w < |Run(s, steps).waiters| && Run(s, steps).waiters[w].code == code
    ensures AllJoined(s, Run(s, steps), code, s.inFlight[code])
    ensures var end := Run(Run(s, steps), more);
      && w < |end.waiters| && !AnsweredAt(end, w)
      && ((forall step :: Own(step) ==> !Enabled(end, step)) ==>
           end.waiters[w].wait.Unavailable? || end.waiters[w].wait.Cancelled?)
  {
    JoinedUntilRemoval(s, steps, limit, code);
    var t := Run(s, steps);
    DeadFlightNeverAnswers(t, more, limit, w);
    var end := Run(t, more);
    if (forall step :: Own(step) ==> !Enabled(end, step)) && Unanswered(end, w) {
      var step := NoDeadlock(end, limit, w);
      assert false;
    }
  }

  /** There can be any number of them. */
  lemma {:induction false} AnyNumberMisled(s: State, limit: nat, code: string, n: nat)
    requires Inv(s, limit) && DeadEntry(s, code)
    ensures var t := Run(s, seq(n, _ => Get(code)));
      |t.waiters| == |s.waiters| + n && t.flights == s.flights && t.inFlight == s.inFlight
      && forall w :: |s.waiters| <= w < |t.waiters| ==> t.waiters[w].code == code && JoinedDead(t, w)
  {
    var steps := seq(n, _ => Get(code));
    if n > 0 {
      assert steps[..n - 1] == seq(n - 1, _ => Get(code));
      AnyNumberMisled(s, limit, code, n - 1);
    }
  }

  /** The first of them that is told so removes the entry, and the next request starts a flight. */
  lemma FirstRemovalEndsIt(s: State, limit: nat, code: string, w: nat)
    requires Inv(s, limit) && DeadEntry(s, code)
    requires w < |s.waiters| && s.waiters[w].wait.Failing? && s.waiters[w].flight == s.inFlight[code]
    ensures var after := Next(s, GiveUp(w));
      && after.waiters[w].wait == Unavailable && code !in after.inFlight
      && |Next(after, Get(code)).flights| == |s.flights| + 1
  {
    assert WaiterOk(s, w) && EntryOk(s, code);
  }

  function Callers(flights: seq<Flight>): set<nat> {
    set i: nat | i < |flights| && flights[i].phase.Calling?
  }

  /** RPCs in progress never exceed the limit. */
  lemma RpcsWithinLimit(limit: nat, steps: seq<Step>)
    ensures |Callers(Run(Init(limit), steps).flights)| <= limit
  {
    RunKeepsInv(limit, steps);
    CallersHold(Run(Init(limit), steps).flights);
  }

  lemma LastCaller(flights: seq<Flight>)
    requires flights != []
    ensures var n := |flights| - 1;
      Callers(flights) == Callers(flights[..n]) + if flights[n].phase.Calling? then {n} else {}
  {
  }

  lemma {:induction false} CallersHold(flights: seq<Flight>)
    ensures |Callers(flights)| <= Holders(flights)
    decreases |flights|
  {
    if flights != [] {
      CallersHold(flights[..|flights| - 1]);
      LastCaller(flights);
    }
  }

  // ---- The code -----------------------------------------------------------------------------------------

  function Completed(s: State, i: nat, reply: Reply): State {
    Next(Next(Next(Next(Next(s, Acquire(i)), Return(i, reply)), Release(i)), Publish(i)), Remove(i))
  }

  lemma CompletedIs(s: State, i: nat, reply: Reply)
    requires i < |s.flights| && s.flights[i].phase.Queued? && s.available > 0
    ensures var code := s.flights[i].code;
      Completed(s, i, reply)
      == s.(flights := s.flights[i := Flight(code, Finished, Some(reply))], inFlight := RemoveIf(s.inFlight, code, i))
  {
    var s1 := Next(s, Acquire(i));
    var s2 := Next(s1, Return(i, reply));
    var s3 := Next(s2, Release(i));
    var s4 := Next(s3, Publish(i));
    assert s4.flights == s.flights[i := Flight(s.flights[i].code, Published, Some(reply))];
  }

  class Client {
    var inFlight: map<string, nat>
    var flights: seq<Flight>
    var waiters: seq<Waiter>
    var available: nat

    ghost function Now(): State reads this {
      State(inFlight, flights, waiters, available)
    }

    constructor WithMaxInFlight(limit: nat)
      ensures Now() == Init(limit)
    {
      inFlight, flights, waiters, available := map[], [], [], limit;
    }

    /** The entry section of get_link: join the flight in the map, or insert a new channel and spawn its task. */
    method GetLink(code: string) returns (w: nat)
      modifies this
      ensures Now() == Next(old(Now()), Get(code)) && w == |old(waiters)|
    {
      var channel;
      if code in inFlight {
        channel := inFlight[code];
      } else {
        channel := |flights|;
        inFlight := inFlight[code := channel];
        flights := flights + [Flight(code, Queued, None)];
      }
      w := |waiters|;
      waiters := waiters + [Waiter(code, channel, Waiting)];
    }

    method SetPhase(i: nat, phase: Phase)
      requires i < |flights|
      modifies this`flights
      ensures flights == old(flights)[i := old(flights)[i].(phase := phase)]
    {
      flights := flights[i := flights[i].(phase := phase)];
    }

    /** The spawned task from its permit to its removal, when nothing else happens meanwhile. */
    method SpawnedTask(i: nat, reply: Reply)
      requires i < |flights| && flights[i].phase.Queued? && available > 0
      modifies this
      ensures Now() == Completed(old(Now()), i, reply)
      ensures available == old(available) && waiters == old(waiters)
      ensures flights == old(flights)[i := Flight(old(flights)[i].code, Finished, Some(reply))]
      ensures inFlight == RemoveIf(old(inFlight), old(flights)[i].code, i)
    {
      available := available - 1;
      SetPhase(i, Calling);
      SetPhase(i, Returned(reply));
      available := available + 1;
      SetPhase(i, Released(reply));
      flights := flights[i := flights[i].(phase := Published, value := Some(reply))];
      var code := flights[i].code;
      if code in inFlight && inFlight[code] == i { inFlight := inFlight - {code}; }
      SetPhase(i, Finished);
      CompletedIs(old(Now()), i, reply);
    }

    /** The tail of get_link, once wait_for has returned: the value if there is one, else the guarded removal. */
    method Wake(w: nat) returns (r: Option<Reply>)
      requires w < |waiters| && waiters[w].wait.Waiting? && waiters[w].flight < |flights|
      requires flights[waiters[w].flight].value.Some? || flights[waiters[w].flight].phase.Dead?
      modifies this
      ensures r == old(flights)[old(waiters)[w].flight].value
      ensures Now() == if r.Some? then Next(old(Now()), Answer(w)) else Next(Next(old(Now()), SeeDeath(w)), GiveUp(w))
    {
      var waiter := waiters[w];
      r := flights[waiter.flight].value;
      if r.Some? {
        waiters := waiters[w := waiter.(wait := Answered(r.value))];
      } else {
        if waiter.code in inFlight && inFlight[waiter.code] == waiter.flight { inFlight := inFlight - {waiter.code}; }
        waiters := waiters[w := waiter.(wait := Unavailable)];
      }
    }
  }
}
