/** The handlers of the BLE central (NobleBleChannel.ts) as they update its fields. Every object is proved to run the
    machine that the protocol module reasons about, and to stay valid whatever events it gets. */
module NobleBleCentral {
  import opened BleConnections

  class NobleBleCentralInterface {
    var closed: bool
    var listening: bool
    var inProgress: bool
    var open: bool
    var calls: nat
    var attempts: seq<Attempt>

    /** The fields as one value. */
    function View(): State
      reads this
    {
      State(closed, listening, inProgress, open, calls, attempts)
    }

    /** Each attempt has retried at most once, and has no timer without its guard; the attempts of one call follow one
        another, at most three of which connect or interview. */
    ghost predicate Valid()
      reads this
    {
      Inv(View())
    }

    constructor ()
      ensures Valid() && View() == Initial
    {
      closed, listening, inProgress, open, calls, attempts := false, false, false, false, 0, [];
      new;
      InitialInv();
    }

    method OpenChannel(call: nat, tryCount: int, p: Peripheral)
      modifies this
      ensures View() == BleConnections.OpenChannel(old(View()), call, tryCount, p)
    {
      if closed || !listening || tryCount > MAX_TRIES || p == Unknown {
        return;
      }
      if open || inProgress || p == Error {
        return;
      }
      var attempt := NewAttempt(call, tryCount);
      if p == Connected {
        attempts := attempts + [attempt.(connected := true)];
        ConnectHandler(|attempts| - 1, false);
      } else if p == InDisconnect {
        attempts := attempts + [attempt.(disconnectTimer := true, tryCount := tryCount - 1, waiting := true,
                                         onDisconnect := true)];
      } else {
        attempts := attempts + [attempt.(connectTimer := true, onConnect := true, onDisconnect := true,
                                         connecting := true)];
      }
    }

    method ClearConnectionGuard(i: nat)
      requires i < |attempts|
      modifies this`attempts
      ensures View() == Update(old(View()), i, ClearGuard(old(attempts[i])))
    {
      attempts := attempts[i := attempts[i].(connectTimer := false)];
      attempts := attempts[i := attempts[i].(interviewTimer := false)];
      attempts := attempts[i := attempts[i].(disconnectTimer := false)];
      attempts := attempts[i := attempts[i].(guarded := false)];
    }

    method ConnectHandler(i: nat, error: bool)
      requires i < |attempts|
      modifies this
      ensures View() == BleConnections.ConnectHandler(old(View()), i, error)
    {
      attempts := attempts[i := attempts[i].(connectTimer := false)];
      if !attempts[i].guarded {
        return;
      }
      if error {
        ClearConnectionGuard(i);
        return;
      }
      if !listening {
        ClearConnectionGuard(i);
        return;
      }
      if inProgress {
        return;
      }
      inProgress := true;
      attempts := attempts[i := attempts[i].(interviewTimer := true, phase := Services)];
    }

    method ReTryHandler(i: nat, p: Peripheral)
      requires i < |attempts|
      modifies this
      ensures View() == Retry(old(View()), i, p)
    {
      ghost var before := attempts;
      ClearConnectionGuard(i);
      inProgress := false;
      attempts := attempts[i := attempts[i].(onConnect := false)];
      attempts := attempts[i := attempts[i].(onDisconnect := false, retries := attempts[i].retries + 1)];
      assert attempts == before[i := Retried(before[i])];
      OpenChannel(attempts[i].call, attempts[i].tryCount + 1, p);
    }

    /** The `finally` block of the connect handler. */
    method FinishHandler(i: nat)
      requires i < |attempts|
      modifies this
      ensures View() == Finally(old(View()), i)
    {
      inProgress := false;
      ClearConnectionGuard(i);
      attempts := attempts[i := attempts[i].(phase := Finished)];
    }

    /** The handler after `NobleBleChannel.create` rejected and the peripheral has disconnected. */
    method AfterFailedCreate(i: nat, p: Peripheral)
      requires i < |attempts|
      modifies this
      ensures View() == Finally(Retry(old(View()), i, p), i)
    {
      OpenChannelKeeps(Update(View(), i, Retried(attempts[i])).(inProgress := false), i,
                       attempts[i].call, attempts[i].tryCount + 1, p);
      ReTryHandler(i, p);
      FinishHandler(i);
    }

    /** The handler once the characteristics of a service are known. */
    method HandleCharacteristics(i: nat, progress: Progress)
      requires i < |attempts|
      modifies this
      ensures View() == Interview(old(View()), i, progress)
    {
      if !attempts[i].guarded {
        FinishHandler(i);
        return;
      }
      match progress {
        case ReadMore =>
          attempts := attempts[i := attempts[i].(phase := Reading)];
        case Missing(moreServices) =>
          if moreServices {
            attempts := attempts[i := attempts[i].(phase := Characteristics)];
          } else {
            FinishHandler(i);
            attempts := attempts[i := attempts[i].(onDisconnect := false)];
          }
        case Complete =>
          attempts := attempts[i := attempts[i].(interviewTimer := false)];
          attempts := attempts[i := attempts[i].(onDisconnect := false, phase := Creating)];
          open := true;
      }
    }

    // ---- The events, each from a valid state to a valid state ----

    /** `openChannel` as its users call it. */
    method Open(p: Peripheral)
      requires Valid()
      modifies this
      ensures Valid() && View() == Apply(old(View()), Call(p))
      ensures Tries(attempts, old(calls)) <= 1 && calls == old(calls) + 1
    {
      StepKeepsInv(View(), Call(p));
      NewCallTries(View(), p);
      calls := calls + 1;
      OpenChannel(calls - 1, 1, p);
    }

    method OnData()
      requires Valid()
      modifies this`listening
      ensures Valid() && View() == Apply(old(View()), Listen)
    {
      StepKeepsInv(View(), Listen);
      listening := true;
    }

    method Close()
      requires Valid()
      modifies this
      ensures Valid() && View() == Apply(old(View()), BleConnections.Close)
    {
      StepKeepsInv(View(), BleConnections.Close);
      closed := true;
      open := false;
    }

    /** The "connect" event, which is listened to once. */
    method OnConnect(i: nat, error: bool)
      requires Valid() && Enabled(View(), ConnectEvent(i, error), false)
      modifies this
      ensures Valid() && View() == Apply(old(View()), ConnectEvent(i, error))
    {
      StepKeepsInv(View(), ConnectEvent(i, error));
      attempts := attempts[i := attempts[i].(onConnect := false, connected := !error)];
      ConnectHandler(i, error);
    }

    /** The "disconnect" event: the attempt retries, for the first and last time. */
    method OnDisconnect(i: nat, p: Peripheral)
      requires Valid() && Enabled(View(), DisconnectEvent(i, p), false)
      modifies this
      ensures Valid() && View() == Apply(old(View()), DisconnectEvent(i, p))
      ensures i < |attempts| && old(attempts[i]).retries == 0 && attempts[i].retries == 1
    {
      StepKeepsInv(View(), DisconnectEvent(i, p));
      RetryKeepsAttempt(View(), i, p);
      ReTryHandler(i, p);
    }

    /** `connectAsync` rejects. */
    method ConnectRejected(i: nat, p: Peripheral)
      requires Valid() && Enabled(View(), ConnectRejects(i, p), true)
      modifies this
      ensures View() == Apply(old(View()), ConnectRejects(i, p))
      ensures Valid() <==> !old(RejectsLate(View(), i))
    {
      OnlyLateRejectionsBreakInv(View(), ConnectRejects(i, p));
      attempts := attempts[i := attempts[i].(connecting := false)];
      if attempts[i].guarded {
        ReTryHandler(i, p);
      }
    }

    method ConnectResolved(i: nat)
      requires Valid() && Enabled(View(), ConnectResolves(i), false)
      modifies this`attempts
      ensures Valid() && View() == Apply(old(View()), ConnectResolves(i))
    {
      StepKeepsInv(View(), ConnectResolves(i));
      attempts := attempts[i := attempts[i].(connecting := false)];
    }

    /** The three timeouts: no guard, no timer and no listener of the attempt that could still start a retry. */
    method ConnectTimedOut(i: nat)
      requires Valid() && Enabled(View(), ConnectTimeout(i), false)
      modifies this`attempts
      ensures Valid() && View() == Apply(old(View()), ConnectTimeout(i))
      ensures !attempts[i].guarded && !attempts[i].onDisconnect && !attempts[i].onConnect
    {
      StepKeepsInv(View(), ConnectTimeout(i));
      ghost var before := attempts;
      attempts := attempts[i := attempts[i].(onConnect := false, onDisconnect := false)];
      ClearConnectionGuard(i);
      assert attempts == before[i := ClearGuard(before[i]).(onConnect := false, onDisconnect := false)];
    }

    method DisconnectTimedOut(i: nat)
      requires Valid() && Enabled(View(), DisconnectTimeout(i), false)
      modifies this`attempts
      ensures Valid() && View() == Apply(old(View()), DisconnectTimeout(i))
      ensures !attempts[i].guarded && !attempts[i].onDisconnect
    {
      StepKeepsInv(View(), DisconnectTimeout(i));
      ghost var before := attempts;
      attempts := attempts[i := attempts[i].(onDisconnect := false)];
      ClearConnectionGuard(i);
      assert attempts == before[i := ClearGuard(before[i]).(onDisconnect := false)];
    }

    method InterviewTimedOut(i: nat)
      requires Valid() && Enabled(View(), InterviewTimeout(i), false)
      modifies this`attempts
      ensures Valid() && View() == Apply(old(View()), InterviewTimeout(i))
      ensures !attempts[i].guarded && !attempts[i].onDisconnect
    {
      StepKeepsInv(View(), InterviewTimeout(i));
      ghost var before := attempts;
      attempts := attempts[i := attempts[i].(onDisconnect := false)];
      ClearConnectionGuard(i);
      assert attempts == before[i := ClearGuard(before[i]).(onDisconnect := false)];
    }

    /** On to the next service of the peripheral, or the end of the handler. */
    method NextOrGiveUp(i: nat, moreServices: bool)
      requires i < |attempts|
      modifies this
      ensures View() == NextService(old(View()), i, moreServices)
    {
      if moreServices {
        attempts := attempts[i := attempts[i].(phase := Characteristics)];
      } else {
        FinishHandler(i);
        attempts := attempts[i := attempts[i].(onDisconnect := false)];
      }
    }

    method HandleServices(i: nat, moreServices: bool)
      requires Valid() && Enabled(View(), ServicesFound(i, moreServices), false)
      modifies this
      ensures Valid() && View() == Apply(old(View()), ServicesFound(i, moreServices))
    {
      StepKeepsInv(View(), ServicesFound(i, moreServices));
      if !attempts[i].guarded {
        FinishHandler(i);
        return;
      }
      NextOrGiveUp(i, moreServices);
    }

    method HandleInterviewed(i: nat, progress: Progress)
      requires Valid() && Enabled(View(), Interviewed(i, progress), false)
      modifies this
      ensures Valid() && View() == Apply(old(View()), Interviewed(i, progress))
    {
      StepKeepsInv(View(), Interviewed(i, progress));
      HandleCharacteristics(i, progress);
    }

    method HandleCreated(i: nat, moreServices: bool)
      requires Valid() && Enabled(View(), Created(i, moreServices), false)
      modifies this
      ensures Valid() && View() == Apply(old(View()), Created(i, moreServices))
    {
      StepKeepsInv(View(), Created(i, moreServices));
      ClearConnectionGuard(i);
      inProgress := false;
      NextOrGiveUp(i, moreServices);
    }

    method HandleCreateRejected(i: nat)
      requires Valid() && Enabled(View(), CreateRejects(i), false)
      modifies this
      ensures Valid() && View() == Apply(old(View()), CreateRejects(i))
    {
      StepKeepsInv(View(), CreateRejects(i));
      inProgress := false;
      open := false;
      attempts := attempts[i := attempts[i].(phase := Disconnecting)];
    }

    /** The peripheral of a failed creation has disconnected: the attempt retries, for the first and last time. */
    method HandleDisconnected(i: nat, p: Peripheral)
      requires Valid() && Enabled(View(), Disconnected(i, p), false)
      modifies this
      ensures Valid() && View() == Apply(old(View()), Disconnected(i, p))
      ensures i < |attempts| && old(attempts[i]).retries == 0 && attempts[i].retries == 1
    {
      StepKeepsInv(View(), Disconnected(i, p));
      DisconnectRetries(View(), i, p);
      AfterFailedCreate(i, p);
    }

    /** Any other call of the handler rejects. */
    method HandlerRejected(i: nat)
      requires Valid() && Enabled(View(), Rejects(i), false)
      modifies this
      ensures Valid() && View() == Apply(old(View()), Rejects(i))
    {
      StepKeepsInv(View(), Rejects(i));
      FinishHandler(i);
    }

    // ---- All events ----

    method PerformConnection(e: Event)
      requires Valid() && Enabled(View(), e, false)
      requires e.ConnectEvent? || e.DisconnectEvent? || e.ConnectRejects? || e.ConnectResolves?
            || e.ConnectTimeout? || e.DisconnectTimeout? || e.InterviewTimeout?
      modifies this
      ensures Valid() && View() == Apply(old(View()), e)
    {
      match e {
        case ConnectEvent(i, error) => OnConnect(i, error);
        case DisconnectEvent(i, p) => OnDisconnect(i, p);
        case ConnectRejects(i, p) => ConnectRejected(i, p);
        case ConnectResolves(i) => ConnectResolved(i);
        case ConnectTimeout(i) => ConnectTimedOut(i);
        case DisconnectTimeout(i) => DisconnectTimedOut(i);
        case InterviewTimeout(i) => InterviewTimedOut(i);
      }
    }

    /** The central takes the step of the machine, from a valid state to a valid state. */
    method Perform(e: Event)
      requires Valid()
      modifies this
      ensures Valid() && View() == Step(old(View()), e, false)
    {
      if !Enabled(View(), e, false) {
        return;
      }
      match e {
        case Call(p) => Open(p);
        case Listen => OnData();
        case Close => Close();
        case ServicesFound(i, moreServices) => HandleServices(i, moreServices);
        case Interviewed(i, progress) => HandleInterviewed(i, progress);
        case Created(i, moreServices) => HandleCreated(i, moreServices);
        case CreateRejects(i) => HandleCreateRejected(i);
        case Disconnected(i, p) => HandleDisconnected(i, p);
        case Rejects(i) => HandlerRejected(i);
        case _ => PerformConnection(e);
      }
    }

    /** A whole life of the central, from any valid state. */
    method PerformAll(events: seq<Event>)
      requires Valid()
      modifies this
      ensures View() == Run(old(View()), events, false)
      ensures forall i | 0 <= i < |attempts| :: attempts[i].retries <= 1
      ensures forall i | 0 <= i < |attempts| && !attempts[i].guarded ::
                !attempts[i].connectTimer && !attempts[i].disconnectTimer && !attempts[i].interviewTimer
      ensures forall call: nat :: Tries(attempts, call) <= 3
    {
      ghost var start := View();
      for i := 0 to |events|
        invariant Valid() && Run(View(), events[i..], false) == Run(start, events, false)
      {
        assert events[i..][0] == events[i] && events[i..][1..] == events[i + 1..];
        Perform(events[i]);
      }
      assert events[|events|..] == [];
    }
  }

  /** A new call has made one try at most. */
  lemma NewCallTries(s: State, p: Peripheral)
    requires Inv(s)
    ensures Tries(Apply(s, Call(p)).attempts, s.calls) <= 1
    ensures Apply(s, Call(p)).calls == s.calls + 1
  {
    TriesOfNewCall(s.attempts, s.calls);
    OneMoreTry(s.(calls := s.calls + 1), s.calls, p);
  }

  lemma OneMoreTry(s: State, call: nat, p: Peripheral)
    ensures
      var t := BleConnections.OpenChannel(s, call, 1, p);
      Tries(t.attempts, call) <= Tries(s.attempts, call) + 1 && t.calls == s.calls
  {
    var t := BleConnections.OpenChannel(s, call, 1, p);
    if t != s {
      assert t.attempts[..|s.attempts|] == s.attempts;
    }
  }
}
