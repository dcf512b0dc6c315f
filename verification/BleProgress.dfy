/** What opening a BLE channel does get done (NobleBleChannel.ts): when a call is tried again and how often, what a
    new attempt waits for, when the channel opens, and what never happens after an attempt was given up. */
module BleProgress {
  import opened BleConnections

  // ---- Trying again ----

  /** A peripheral that an attempt can start with. */
  predicate Usable(p: Peripheral) {
    p == Idle || p == InDisconnect || p == Connected
  }

  /** The central takes connections, and the channel is not open. */
  predicate ForBusiness(s: State) {
    s.listening && !s.closed && !s.open
  }

  /** The state after a retry of attempt `i`: exactly one more attempt of its call, which only waits if the peripheral
      is disconnecting, and whose count goes on from the tries made so far; or none. */
  predicate TriedAgain(s: State, t: State, i: nat, p: Peripheral, again: bool)
    requires i < |s.attempts|
  {
    if again then
      |t.attempts| == |s.attempts| + 1
      && var a, tries := t.attempts[|s.attempts|], Tries(s.attempts, s.attempts[i].call);
         && a.call == s.attempts[i].call
         && (a.waiting <==> p == InDisconnect)
         && a.tryCount == (if a.waiting then tries else tries + 1)
         && Tries(t.attempts, a.call) == (if a.waiting then tries else tries + 1)
    else |t.attempts| == |s.attempts| && Tries(t.attempts, s.attempts[i].call) == Tries(s.attempts, s.attempts[i].call)
  }

  lemma OpenChannelAdds(s: State, call: nat, tryCount: int, p: Peripheral)
    requires !s.inProgress
    ensures
      var t := OpenChannel(s, call, tryCount, p);
      if ForBusiness(s) && tryCount <= 3 && Usable(p)
      then |t.attempts| == |s.attempts| + 1 && t.attempts[..|s.attempts|] == s.attempts
           && var a := t.attempts[|s.attempts|];
              a.call == call && (a.waiting <==> p == InDisconnect)
              && a.tryCount == (if a.waiting then tryCount - 1 else tryCount)
      else t.attempts == s.attempts
  {
  }

  lemma TriesGrow(s: State, t: State, call: nat)
    requires |t.attempts| == |s.attempts| + 1 && t.attempts[..|s.attempts|] == s.attempts
    ensures Tries(t.attempts, call)
         == Tries(s.attempts, call)
            + if t.attempts[|s.attempts|].call == call && !t.attempts[|s.attempts|].waiting then 1 else 0
  {
  }

  /** Exactly when a retry opens the channel again: the central is open for business, the call has made fewer than
      three tries, and the peripheral can be used. */
  lemma RetryTriesAgainIff(s: State, i: nat, p: Peripheral)
    requires Inv(s) && i < |s.attempts| && s.attempts[i].retries == 0
    requires s.attempts[i].phase !in {Creating, Disconnecting}
    ensures TriedAgain(s, Retry(s, i, p), i, p,
                       ForBusiness(s) && Tries(s.attempts, s.attempts[i].call) < 3 && Usable(p))
  {
    var r, call := Reopening(s, i), s.attempts[i].call;
    RetryReopens(s, i, p);
    TriesUpdate(s.attempts, i, Retried(s.attempts[i]), call);
    OpenChannelAdds(r, call, s.attempts[i].tryCount + 1, p);
    var t := Retry(s, i, p);
    if |t.attempts| == |s.attempts| + 1 {
      TriesGrow(r, t, call);
    }
  }

  /** A disconnect during an attempt. */
  lemma DisconnectTriesAgainIff(s: State, i: nat, p: Peripheral)
    requires Inv(s) && Enabled(s, DisconnectEvent(i, p), false)
    ensures TriedAgain(s, Step(s, DisconnectEvent(i, p), false), i, p,
                       ForBusiness(s) && Tries(s.attempts, s.attempts[i].call) < 3 && Usable(p))
  {
    RetryTriesAgainIff(s, i, p);
  }

  /** A rejected connect, of an attempt that has not been given up. */
  lemma RejectionTriesAgainIff(s: State, i: nat, p: Peripheral)
    requires Inv(s) && Enabled(s, ConnectRejects(i, p), false) && s.attempts[i].guarded
    ensures TriedAgain(s, Step(s, ConnectRejects(i, p), false), i, p,
                       ForBusiness(s) && Tries(s.attempts, s.attempts[i].call) < 3 && Usable(p))
  {
    var a := s.attempts[i].(connecting := false);
    var t := Update(s, i, a);
    UpdateKeepsInv(s, i, a);
    RetryTriesAgainIff(t, i, p);
    TriesUpdate(s.attempts, i, a, a.call);
  }

  /** The disconnect after the creation of the channel has failed. */
  lemma FailedCreationTriesAgainIff(s: State, i: nat, p: Peripheral)
    requires Inv(s) && Enabled(s, Disconnected(i, p), false)
    ensures TriedAgain(s, Step(s, Disconnected(i, p), false), i, p,
                       ForBusiness(s) && Tries(s.attempts, s.attempts[i].call) < 3 && Usable(p))
  {
    var a := s.attempts[i].(phase := Finished);
    var t := Update(s, i, a);
    UpdateKeepsInv(s, i, a);
    RetryTriesAgainIff(t, i, p);
    TriesUpdate(s.attempts, i, a, a.call);
    RetryThenFinish(s, i, p);
  }

  /** Three tries are made, and not a fourth: of a call whose peripheral disconnects each time. */
  lemma ThreeTriesAreMade()
    ensures
      var s := Run(Initial, [Listen, Call(Idle), DisconnectEvent(0, Idle), DisconnectEvent(1, Idle)], false);
      Tries(s.attempts, 0) == 3 && |s.attempts| == 3
      && Enabled(s, DisconnectEvent(2, Idle), false)
      && |Step(s, DisconnectEvent(2, Idle), false).attempts| == 3
  {
    var listening := Step(Initial, Listen, false);
    var one := Step(listening, Call(Idle), false);
    CallOpensIff(listening, Idle);
    InitialInv();
    StepKeepsInv(Initial, Listen);
    StepKeepsInv(listening, Call(Idle));
    assert |one.attempts| == 1 && Tries(one.attempts[..0], 0) == 0 && Tries(one.attempts, 0) == 1;
    var two := IdleAgain(one, 0);
    var three := IdleAgain(two, 1);
    DisconnectTriesAgainIff(three, 2, Idle);
    RunOfFour(Listen, Call(Idle), DisconnectEvent(0, Idle), DisconnectEvent(1, Idle));
  }

  lemma IdleAgain(s: State, i: nat) returns (t: State)
    requires Inv(s) && ForBusiness(s) && |s.attempts| == i + 1 && Tries(s.attempts, 0) == i + 1 < 3
    requires s.attempts[i].call == 0 && s.attempts[i].onDisconnect
    ensures t == Step(s, DisconnectEvent(i, Idle), false)
    ensures Inv(t) && ForBusiness(t) && |t.attempts| == i + 2 && Tries(t.attempts, 0) == i + 2
    ensures t.attempts[i + 1].call == 0 && t.attempts[i + 1].onDisconnect
  {
    t := Step(s, DisconnectEvent(i, Idle), false);
    StepKeepsInv(s, DisconnectEvent(i, Idle));
    DisconnectTriesAgainIff(s, i, Idle);
  }

  lemma RunOfFour(a: Event, b: Event, c: Event, d: Event)
    ensures Run(Initial, [a, b, c, d], false)
         == Step(Step(Step(Step(Initial, a, false), b, false), c, false), d, false)
  {
    RunLast(Initial, [a, b, c], d, false);
    RunLast(Initial, [a, b], c, false);
    RunLast(Initial, [a], b, false);
    RunLast(Initial, [], a, false);
    assert [a, b, c] + [d] == [a, b, c, d] && [a, b] + [c] == [a, b, c] && [a] + [b] == [a, b] && [] + [a] == [a];
  }

  // ---- What a new attempt waits for ----

  /** The central does nothing before somebody listens, and then it is open for business. */
  lemma ListeningOpensForBusiness()
    ensures !ForBusiness(Initial) && ForBusiness(Step(Initial, Listen, false))
    ensures !Initial.inProgress && Initial.calls == 0 && Initial.attempts == []
  {
  }

  /** Exactly when an outer call makes an attempt, and what that attempt waits for: a connect with its timeout, the end
      of a disconnect with its timeout, or the services of a peripheral that is connected. */
  lemma CallOpensIff(s: State, p: Peripheral)
    ensures
      var t := Step(s, Call(p), false);
      t.calls == s.calls + 1
      && if ForBusiness(s) && !s.inProgress && Usable(p)
         then |t.attempts| == |s.attempts| + 1 && t.attempts[..|s.attempts|] == s.attempts
              && WaitsFor(t.attempts[|s.attempts|], p)
              && t.attempts[|s.attempts|].call == s.calls && (t.inProgress <==> p == Connected)
         else t.attempts == s.attempts
  {
  }

  predicate WaitsFor(a: Attempt, p: Peripheral) {
    && a.guarded && a.retries == 0 && a.tryCount == (if p == InDisconnect then 0 else 1)
    && (a.connected <==> p == Connected) && (a.waiting <==> p == InDisconnect)
    && (a.connectTimer <==> p == Idle) && (a.onConnect <==> p == Idle) && (a.connecting <==> p == Idle)
    && (a.disconnectTimer <==> p == InDisconnect)
    && (a.onDisconnect <==> p != Connected)
    && (a.interviewTimer <==> p == Connected)
    && a.phase == if p == Connected then Services else NotStarted
  }

  // ---- Success ----

  /** Exactly when a connect starts the interview: the attempt has not been given up, the connect brought no error,
      somebody listens, and no other attempt is in progress. An error or nobody listening gives the guard up. */
  lemma ConnectInterviewsIff(s: State, i: nat, error: bool)
    requires Enabled(s, ConnectEvent(i, error), false)
    ensures
      var t := Step(s, ConnectEvent(i, error), false);
      var starts := s.attempts[i].guarded && !error && s.listening && !s.inProgress;
      && |t.attempts| == |s.attempts| && t.inProgress == (s.inProgress || starts)
      && var a, b := s.attempts[i], t.attempts[i];
         && b.phase == (if starts then Services else a.phase) && (starts ==> b.interviewTimer)
         && (b.guarded <==> a.guarded && !error && s.listening)
         && !b.onConnect && !b.connectTimer && b.onDisconnect == a.onDisconnect && (b.connected <==> !error)
  {
  }

  /** What a handler waits for: the services, the characteristics or the data read from one of them, the channel, or the
      disconnect after a failed creation. Each of these can fail, the creation by another event. */
  lemma HandlerWaitsFor(s: State, i: nat, more: bool, progress: Progress, p: Peripheral)
    requires i < |s.attempts|
    ensures
      var phase := s.attempts[i].phase;
      && (Enabled(s, ServicesFound(i, more), false) <==> phase == Services)
      && (Enabled(s, Interviewed(i, progress), false) <==> phase == Characteristics || phase == Reading)
      && (Enabled(s, Created(i, more), false) <==> phase == Creating)
      && (Enabled(s, CreateRejects(i), false) <==> phase == Creating)
      && (Enabled(s, Disconnected(i, p), false) <==> phase == Disconnecting)
      && (Enabled(s, Rejects(i), false) <==> phase != NotStarted && phase != Creating && phase != Finished)
  {
  }

  lemma ConnectStartsInterview(s: State, i: nat)
    requires i < |s.attempts| && s.attempts[i].guarded && s.attempts[i].onConnect && ForBusiness(s) && !s.inProgress
    ensures
      var a := s.attempts[i].(onConnect := false, connected := true, connectTimer := false, interviewTimer := true,
                              phase := Services);
      Step(s, ConnectEvent(i, false), false) == Update(s, i, a).(inProgress := true)
  {
  }

  lemma InterviewCreates(s: State, i: nat)
    requires i < |s.attempts| && s.attempts[i].guarded && s.attempts[i].phase == Services
    ensures
      var found := Step(s, ServicesFound(i, true), false);
      var a := s.attempts[i].(interviewTimer := false, onDisconnect := false, phase := Creating);
      found == Update(s, i, s.attempts[i].(phase := Characteristics))
      && Step(found, Interviewed(i, Complete), false) == Update(s, i, a).(open := true)
  {
    var found := Update(s, i, s.attempts[i].(phase := Characteristics));
    assert found.attempts[i].guarded;
    var a := s.attempts[i].(interviewTimer := false, onDisconnect := false, phase := Creating);
    assert found.attempts[i := a] == s.attempts[i := a];
  }

  lemma CreationFinishes(s: State, i: nat)
    requires i < |s.attempts| && s.attempts[i].phase == Creating
    ensures
      var t := Step(s, Created(i, false), false);
      t == Update(s, i, ClearGuard(s.attempts[i]).(phase := Finished, onDisconnect := false)).(inProgress := false)
  {
    var a := ClearGuard(s.attempts[i]).(phase := Finished, onDisconnect := false);
    assert s.attempts[i := ClearGuard(s.attempts[i])][i := a] == s.attempts[i := a];
  }

  /** Once the channel is created the guard and the progress mark are gone, also when more services are to be looked at;
      a further one finds the guard gone, and the handler ends. */
  lemma CreationGoesOn(s: State, i: nat)
    requires i < |s.attempts| && s.attempts[i].phase == Creating
    ensures Step(s, Created(i, true), false)
         == Update(s, i, ClearGuard(s.attempts[i]).(phase := Characteristics)).(inProgress := false)
  {
    var a := ClearGuard(s.attempts[i]);
    assert s.attempts[i := a][i := a.(phase := Characteristics)] == s.attempts[i := a.(phase := Characteristics)];
  }

  lemma UnguardedInterviewEnds(s: State, i: nat, progress: Progress)
    requires Enabled(s, Interviewed(i, progress), false) && !s.attempts[i].guarded
    ensures
      var a := s.attempts[i].(connectTimer := false, disconnectTimer := false, interviewTimer := false, phase := Finished);
      Step(s, Interviewed(i, progress), false) == Update(s, i, a).(inProgress := false)
  {
  }

  /** A connect that has resolved can no longer reject. */
  lemma ResolvedConnectIsOver(s: State, i: nat, p: Peripheral)
    requires Enabled(s, ConnectResolves(i), false)
    ensures
      var t := Step(s, ConnectResolves(i), false);
      t == Update(s, i, s.attempts[i].(connecting := false)) && !Enabled(t, ConnectRejects(i, p), true)
  {
  }

  /** The channel is opened: the connect arrives, services and characteristics are found, and the channel is created.
      Nothing of the attempt is left that could still do anything. */
  lemma ConnectedChannelOpens(s: State, i: nat)
    requires i < |s.attempts| && s.attempts[i].guarded && s.attempts[i].onConnect && ForBusiness(s) && !s.inProgress
    ensures
      var interviewing := Step(s, ConnectEvent(i, false), false);
      var found := Step(interviewing, ServicesFound(i, true), false);
      var creating := Step(found, Interviewed(i, Complete), false);
      var t := Step(creating, Created(i, false), false);
      && interviewing.inProgress && !interviewing.open && !found.open && creating.open
      && t.open && !t.inProgress && |t.attempts| == |s.attempts|
      && t.attempts[i] == s.attempts[i].(guarded := false, connectTimer := false, disconnectTimer := false,
                                         interviewTimer := false, onConnect := false, onDisconnect := false,
                                         connected := true, phase := Finished)
  {
    ConnectStartsInterview(s, i);
    var interviewing := Step(s, ConnectEvent(i, false), false);
    InterviewCreates(interviewing, i);
    CreationFinishes(Step(Step(interviewing, ServicesFound(i, true), false), Interviewed(i, Complete), false), i);
  }

  /** The interview goes on to another read or another service, or gives up when there is none. */
  lemma InterviewGoesOn(s: State, i: nat, progress: Progress)
    requires Inv(s) && Enabled(s, Interviewed(i, progress), false) && s.attempts[i].guarded && !progress.Complete?
    ensures
      var t := Step(s, Interviewed(i, progress), false);
      var more := progress.ReadMore? || progress.moreServices;
      && |t.attempts| == |s.attempts| && t.open == s.open
      && (if more then t.attempts[i] == s.attempts[i].(phase := if progress.ReadMore? then Reading else Characteristics)
                       && t.inProgress == s.inProgress
          else GivenUp(t.attempts[i]) && !t.inProgress)
  {
  }

  /** A failed creation closes the channel again, and disconnects. */
  lemma FailedCreationCloses(s: State, i: nat)
    requires Enabled(s, CreateRejects(i), false)
    ensures
      var t := Step(s, CreateRejects(i), false);
      !t.open && !t.inProgress && |t.attempts| == |s.attempts| && t.attempts[i].phase == Disconnecting
  {
  }

  // ---- Giving up ----

  /** Nothing can make the attempt retry any more. */
  predicate GivenUp(a: Attempt) {
    !a.guarded && !a.onConnect && !a.onDisconnect && a.phase !in {Creating, Disconnecting}
  }

  lemma OpenChannelLeaves(s: State, call: nat, tryCount: int, p: Peripheral, i: nat)
    requires i < |s.attempts|
    ensures i < |OpenChannel(s, call, tryCount, p).attempts|
    ensures OpenChannel(s, call, tryCount, p).attempts[i] == s.attempts[i]
  {
    OpenChannelKeeps(s, i, call, tryCount, p);
  }

  lemma RetryLeaves(s: State, j: nat, p: Peripheral, i: nat)
    requires i < |s.attempts| && j < |s.attempts| && i != j
    ensures i < |Retry(s, j, p).attempts| && Retry(s, j, p).attempts[i] == s.attempts[i]
  {
    RetryReopens(s, j, p);
    OpenChannelLeaves(Reopening(s, j), s.attempts[j].call, s.attempts[j].tryCount + 1, p, i);
  }

  /** Whether an event concerns the connection of an attempt, one of its timers, or its handler. */
  predicate OfConnection(e: Event) {
    e.ConnectEvent? || e.DisconnectEvent? || e.ConnectRejects? || e.ConnectResolves?
  }

  predicate OfTimer(e: Event) {
    e.ConnectTimeout? || e.DisconnectTimeout? || e.InterviewTimeout?
  }

  predicate OfHandler(e: Event) {
    e.ServicesFound? || e.Interviewed? || e.Created? || e.CreateRejects? || e.Disconnected? || e.Rejects?
  }

  lemma ConnectionLeaves(s: State, e: Event, i: nat)
    requires Enabled(s, e, true) && i < |s.attempts| && OfConnection(e) && e.i != i
    ensures i < |Apply(s, e).attempts| && Apply(s, e).attempts[i] == s.attempts[i]
  {
    match e
    case DisconnectEvent(j, p) => RetryLeaves(s, j, p, i);
    case ConnectRejects(j, p) =>
      if s.attempts[j].guarded {
        RetryLeaves(Update(s, j, s.attempts[j].(connecting := false)), j, p, i);
      }
    case _ =>
  }

  lemma FinallyLeaves(s: State, j: nat, i: nat)
    requires i < |s.attempts| && j < |s.attempts| && i != j
    ensures |Finally(s, j).attempts| == |s.attempts| && Finally(s, j).attempts[i] == s.attempts[i]
  {
  }

  lemma NextServiceLeaves(s: State, j: nat, moreServices: bool, i: nat)
    requires i < |s.attempts| && j < |s.attempts| && i != j
    ensures |NextService(s, j, moreServices).attempts| == |s.attempts|
    ensures NextService(s, j, moreServices).attempts[i] == s.attempts[i]
  {
    FinallyLeaves(s, j, i);
  }

  lemma InterviewLeaves(s: State, j: nat, progress: Progress, i: nat)
    requires i < |s.attempts| && j < |s.attempts| && i != j
    ensures |Interview(s, j, progress).attempts| == |s.attempts| && Interview(s, j, progress).attempts[i] == s.attempts[i]
  {
    FinallyLeaves(s, j, i);
    if progress.Missing? {
      NextServiceLeaves(s, j, progress.moreServices, i);
    }
  }

  lemma HandlerLeaves(s: State, e: Event, i: nat)
    requires Enabled(s, e, true) && i < |s.attempts| && OfHandler(e) && e.i != i
    ensures i < |Apply(s, e).attempts| && Apply(s, e).attempts[i] == s.attempts[i]
  {
    match e
    case ServicesFound(j, moreServices) =>
      FinallyLeaves(s, j, i);
      NextServiceLeaves(s, j, moreServices, i);
    case Interviewed(j, progress) => InterviewLeaves(s, j, progress, i);
    case Created(j, moreServices) =>
      NextServiceLeaves(Update(s, j, ClearGuard(s.attempts[j])).(inProgress := false), j, moreServices, i);
    case CreateRejects(_) =>
    case Disconnected(j, p) =>
      RetryLeaves(s, j, p, i);
      FinallyLeaves(Retry(s, j, p), j, i);
    case Rejects(j) => FinallyLeaves(s, j, i);
  }

  lemma OthersAreLeft(s: State, e: Event, i: nat)
    requires Enabled(s, e, true) && i < |s.attempts| && !(e.Call? || e.Listen? || e.Close?) && e.i != i
    ensures i < |Apply(s, e).attempts| && Apply(s, e).attempts[i] == s.attempts[i]
  {
    if OfConnection(e) {
      ConnectionLeaves(s, e, i);
    } else if OfHandler(e) {
      HandlerLeaves(s, e, i);
    }
  }

  lemma OwnConnection(s: State, e: Event)
    requires Enabled(s, e, true) && (OfConnection(e) || OfTimer(e)) && GivenUp(s.attempts[e.i])
    ensures e.i < |Apply(s, e).attempts| && GivenUp(Apply(s, e).attempts[e.i])
    ensures Apply(s, e).attempts[e.i].retries == s.attempts[e.i].retries
  {
  }

  lemma OwnHandler(s: State, e: Event)
    requires Enabled(s, e, true) && OfHandler(e) && GivenUp(s.attempts[e.i])
    ensures e.i < |Apply(s, e).attempts| && GivenUp(Apply(s, e).attempts[e.i])
    ensures Apply(s, e).attempts[e.i].retries == s.attempts[e.i].retries
  {
  }

  lemma GivenUpStep(s: State, e: Event, i: nat)
    requires i < |s.attempts| && GivenUp(s.attempts[i])
    ensures i < |Step(s, e, true).attempts| && GivenUp(Step(s, e, true).attempts[i])
    ensures Step(s, e, true).attempts[i].retries == s.attempts[i].retries
  {
    if Enabled(s, e, true) {
      if e.Call? {
        OpenChannelLeaves(s.(calls := s.calls + 1), s.calls, 1, e.p, i);
      } else if e.Listen? || e.Close? {
      } else if e.i != i {
        OthersAreLeft(s, e, i);
      } else if OfHandler(e) {
        OwnHandler(s, e);
      } else {
        OwnConnection(s, e);
      }
    }
  }

  /** Once given up, an attempt never retries, whatever happens afterwards, late answers of the driver included. */
  lemma {:induction false} GivenUpNeverRetries(s: State, events: seq<Event>, i: nat)
    requires i < |s.attempts| && GivenUp(s.attempts[i])
    ensures
      var t := Run(s, events, true);
      i < |t.attempts| && GivenUp(t.attempts[i]) && t.attempts[i].retries == s.attempts[i].retries
    decreases events
  {
    if events != [] {
      GivenUpStep(s, events[0], i);
      GivenUpNeverRetries(Step(s, events[0], true), events[1..], i);
    }
  }

  // ---- Timeouts ----

  /** Where an attempt stands while a timer of it runs. */
  predicate Fit(a: Attempt) {
    && (a.connectTimer ==> a.phase == NotStarted)
    && (a.disconnectTimer ==> a.phase == NotStarted && !a.onConnect)
    && (a.interviewTimer ==> a.phase in {Services, Characteristics, Reading} && !a.onConnect)
  }

  ghost predicate AllFit(s: State) {
    forall i | 0 <= i < |s.attempts| :: Fit(s.attempts[i])
  }

  lemma NewAttemptFits(s: State, call: nat, tryCount: int, p: Peripheral)
    ensures
      var t := OpenChannel(s, call, tryCount, p);
      |s.attempts| <= |t.attempts| <= |s.attempts| + 1
      && (|t.attempts| > |s.attempts| ==> Fit(t.attempts[|s.attempts|]))
  {
  }

  lemma RetryFits(s: State, i: nat, p: Peripheral)
    requires i < |s.attempts|
    ensures
      var t := Retry(s, i, p);
      |s.attempts| <= |t.attempts| <= |s.attempts| + 1 && Fit(t.attempts[i])
      && (|t.attempts| > |s.attempts| ==> Fit(t.attempts[|s.attempts|]))
  {
    RetryReopens(s, i, p);
    RetryKeepsAttempt(s, i, p);
    NewAttemptFits(Reopening(s, i), s.attempts[i].call, s.attempts[i].tryCount + 1, p);
  }

  /** The attempt of an event, and one that the event may add, fit. */
  predicate FitsAt(s: State, t: State, i: nat)
    requires i < |s.attempts|
  {
    |s.attempts| <= |t.attempts| <= |s.attempts| + 1 && Fit(t.attempts[i])
    && (|t.attempts| > |s.attempts| ==> Fit(t.attempts[|s.attempts|]))
  }

  lemma ConnectFits(s: State, i: nat, error: bool)
    requires i < |s.attempts| && Fit(s.attempts[i]) && s.attempts[i].phase == NotStarted && s.attempts[i].onConnect
    ensures FitsAt(s, ConnectHandler(Update(s, i, s.attempts[i].(onConnect := false, connected := !error)), i, error), i)
  {
  }

  lemma ConnectionFits(s: State, e: Event)
    requires Enabled(s, e, true) && OfConnection(e) && Fit(s.attempts[e.i])
    requires e.ConnectEvent? ==> s.attempts[e.i].phase == NotStarted
    ensures FitsAt(s, Apply(s, e), e.i)
  {
    match e
    case ConnectEvent(i, error) => ConnectFits(s, i, error);
    case DisconnectEvent(i, p) => RetryFits(s, i, p);
    case ConnectRejects(i, p) =>
      if s.attempts[i].guarded {
        RetryFits(Update(s, i, s.attempts[i].(connecting := false)), i, p);
      }
    case ConnectResolves(_) =>
  }

  lemma TimerFits(s: State, e: Event)
    requires Enabled(s, e, true) && OfTimer(e) && Fit(s.attempts[e.i])
    ensures FitsAt(s, Apply(s, e), e.i)
  {
  }

  lemma FinallyFits(s: State, i: nat)
    requires i < |s.attempts|
    ensures FitsAt(s, Finally(s, i), i)
  {
  }

  lemma NextServiceFits(s: State, i: nat, moreServices: bool)
    requires i < |s.attempts| && Fit(s.attempts[i]) && s.attempts[i].phase != NotStarted
    ensures FitsAt(s, NextService(s, i, moreServices), i)
  {
    NextServiceAttempt(s, i, moreServices);
  }

  lemma NextServiceAttempt(s: State, i: nat, moreServices: bool)
    requires i < |s.attempts|
    ensures
      var t := NextService(s, i, moreServices);
      |t.attempts| == |s.attempts|
      && t.attempts[i] == if moreServices then s.attempts[i].(phase := Characteristics)
                          else ClearGuard(s.attempts[i]).(phase := Finished, onDisconnect := false)
  {
  }

  lemma InterviewFits(s: State, i: nat, progress: Progress)
    requires i < |s.attempts| && Fit(s.attempts[i]) && s.attempts[i].phase in {Characteristics, Reading}
    ensures FitsAt(s, Interview(s, i, progress), i)
  {
    FinallyFits(s, i);
    if progress.Missing? {
      NextServiceFits(s, i, progress.moreServices);
    }
  }

  lemma HandlerFits(s: State, e: Event)
    requires Enabled(s, e, true) && OfHandler(e) && Fit(s.attempts[e.i])
    ensures FitsAt(s, Apply(s, e), e.i)
  {
    match e
    case ServicesFound(i, moreServices) =>
      FinallyFits(s, i);
      NextServiceFits(s, i, moreServices);
    case Interviewed(i, progress) => InterviewFits(s, i, progress);
    case Created(i, moreServices) =>
      NextServiceFits(Update(s, i, ClearGuard(s.attempts[i])).(inProgress := false), i, moreServices);
    case CreateRejects(_) =>
    case Disconnected(i, p) =>
      RetryFits(s, i, p);
      FinallyFits(Retry(s, i, p), i);
      if |Retry(s, i, p).attempts| > |s.attempts| {
        FinallyLeaves(Retry(s, i, p), i, |s.attempts|);
      }
    case Rejects(i) => FinallyFits(s, i);
  }

  lemma EventFits(s: State, e: Event)
    requires Inv(s) && AllFit(s) && Enabled(s, e, false) && !(e.Call? || e.Listen? || e.Close?)
    ensures FitsAt(s, Apply(s, e), e.i)
  {
    assert Fit(s.attempts[e.i]);
    if OfConnection(e) {
      ConnectionFits(s, e);
    } else if OfHandler(e) {
      HandlerFits(s, e);
    } else {
      TimerFits(s, e);
    }
  }

  lemma StepFits(s: State, e: Event)
    requires AllFit(s) && Inv(s)
    ensures AllFit(Step(s, e, false))
  {
    if Enabled(s, e, false) {
      if e.Call? {
        CallFits(s, e.p);
      } else if e.Listen? || e.Close? {
      } else {
        EventFits(s, e);
        OthersFit(s, e);
      }
    }
  }

  lemma OthersFit(s: State, e: Event)
    requires AllFit(s) && Enabled(s, e, false) && !(e.Call? || e.Listen? || e.Close?)
    requires FitsAt(s, Apply(s, e), e.i)
    ensures AllFit(Apply(s, e))
  {
    var t := Apply(s, e);
    forall i | 0 <= i < |t.attempts| ensures Fit(t.attempts[i]) {
      if i < |s.attempts| && i != e.i {
        OthersAreLeft(s, e, i);
      }
    }
  }

  lemma CallFits(s: State, p: Peripheral)
    requires AllFit(s)
    ensures AllFit(Apply(s, Call(p)))
  {
    var u, t := s.(calls := s.calls + 1), Apply(s, Call(p));
    NewAttemptFits(u, s.calls, 1, p);
    forall i | 0 <= i < |t.attempts| ensures Fit(t.attempts[i]) {
      if i < |s.attempts| {
        OpenChannelLeaves(u, s.calls, 1, p, i);
      }
    }
  }

  lemma {:induction false} RunFits(s: State, events: seq<Event>)
    requires AllFit(s) && Inv(s)
    ensures AllFit(Run(s, events, false))
    decreases events
  {
    if events != [] {
      StepFits(s, events[0]);
      StepKeepsInv(s, events[0]);
      RunFits(Step(s, events[0], false), events[1..]);
    }
  }

  lemma TimeoutGivesUp(s: State, e: Event)
    requires AllFit(s) && Inv(s) && Enabled(s, e, false) && OfTimer(e)
    ensures |Step(s, e, false).attempts| == |s.attempts| && GivenUp(Step(s, e, false).attempts[e.i])
    ensures Step(s, e, false).attempts[e.i].retries == s.attempts[e.i].retries
  {
    assert Fit(s.attempts[e.i]);
  }

  /** In every run, whichever of its three timers runs out: from then on the attempt never retries, even if the driver
      answers late. */
  lemma TimedOutNeverRetries(before: seq<Event>, e: Event, after: seq<Event>)
    requires Enabled(Run(Initial, before, false), e, false) && OfTimer(e)
    ensures
      var s := Run(Initial, before, false);
      var t := Run(Step(s, e, false), after, true);
      e.i < |t.attempts| && t.attempts[e.i].retries == s.attempts[e.i].retries == 0
  {
    var s := Run(Initial, before, false);
    InitialInv();
    RunKeepsInv(Initial, before);
    RunFits(Initial, before);
    TimeoutGivesUp(s, e);
    GivenUpNeverRetries(Step(s, e, false), after, e.i);
  }

  // ---- After close ----

  lemma ClosedRetryAdds(s: State, i: nat, p: Peripheral)
    requires s.closed && i < |s.attempts|
    ensures Retry(s, i, p).closed && |Retry(s, i, p).attempts| == |s.attempts|
  {
    RetryReopens(s, i, p);
  }

  lemma ClosedConnection(s: State, e: Event)
    requires s.closed && Enabled(s, e, true) && OfConnection(e)
    ensures Apply(s, e).closed && |Apply(s, e).attempts| == |s.attempts|
  {
    match e
    case DisconnectEvent(i, p) => ClosedRetryAdds(s, i, p);
    case ConnectRejects(i, p) => ClosedRetryAdds(Update(s, i, s.attempts[i].(connecting := false)), i, p);
    case _ =>
  }

  lemma ClosedHandler(s: State, e: Event)
    requires s.closed && Enabled(s, e, true) && OfHandler(e)
    ensures Apply(s, e).closed && |Apply(s, e).attempts| == |s.attempts|
  {
    match e
    case ServicesFound(i, moreServices) => NextServiceStays(s, i, moreServices);
    case Interviewed(i, progress) =>
      if progress.Missing? {
        NextServiceStays(s, i, progress.moreServices);
      }
    case Created(i, moreServices) =>
      NextServiceStays(Update(s, i, ClearGuard(s.attempts[i])).(inProgress := false), i, moreServices);
    case CreateRejects(_) =>
    case Disconnected(i, p) => ClosedRetryAdds(s, i, p);
    case Rejects(_) =>
  }

  lemma NextServiceStays(s: State, i: nat, moreServices: bool)
    requires i < |s.attempts|
    ensures NextService(s, i, moreServices).closed == s.closed
    ensures |NextService(s, i, moreServices).attempts| == |s.attempts|
  {
  }

  lemma ClosedAddsNothing(s: State, e: Event)
    requires s.closed
    ensures Step(s, e, true).closed && |Step(s, e, true).attempts| == |s.attempts|
  {
    if Enabled(s, e, true) {
      if OfConnection(e) {
        ClosedConnection(s, e);
      } else if OfHandler(e) {
        ClosedHandler(s, e);
      }
    }
  }

  /** After close the channel is not open, and in no run is another attempt ever made. */
  lemma {:induction false} ClosedMakesNoAttempt(s: State, events: seq<Event>)
    ensures
      var c := Step(s, Close, false);
      !c.open && c.closed && |Run(c, events, true).attempts| == |s.attempts|
  {
    ClosedRun(Step(s, Close, false), events);
  }

  lemma {:induction false} ClosedRun(s: State, events: seq<Event>)
    requires s.closed
    ensures Run(s, events, true).closed && |Run(s, events, true).attempts| == |s.attempts|
    decreases events
  {
    if events != [] {
      ClosedAddsNothing(s, events[0]);
      ClosedRun(Step(s, events[0], true), events[1..]);
    }
  }
}
