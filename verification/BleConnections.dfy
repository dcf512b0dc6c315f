/** Opening a channel to one BLE peripheral (NobleBleChannel.ts): connection attempts with their guard, timers,
    listeners and retries, as a state machine over the events the BLE driver and the timers deliver.

    All events concern one address, the key under which the source keeps its state. */
module BleConnections {

  /** Where the connect handler of an attempt is suspended. */
  datatype Phase = NotStarted | Services | Characteristics | Reading | Creating | Disconnecting | Finished

  /** One pass through `openChannel` that got as far as making a guard. `call` numbers the outer call it serves;
      a `waiting` attempt only waits for the peripheral to finish disconnecting. */
  datatype Attempt = Attempt(
    call: nat,
    tryCount: int,
    waiting: bool,
    guarded: bool,
    connectTimer: bool,
    disconnectTimer: bool,
    interviewTimer: bool,
    onConnect: bool,
    onDisconnect: bool,
    connecting: bool,
    connected: bool,
    phase: Phase,
    retries: nat)

  datatype State = State(
    closed: bool,
    listening: bool,
    inProgress: bool,
    open: bool,
    calls: nat,
    attempts: seq<Attempt>)

  datatype Peripheral = Unknown | Error | Connected | InDisconnect | Idle

  const MAX_TRIES := 3

  const Initial := State(false, false, false, false, 0, [])

  function ClearGuard(a: Attempt): Attempt {
    a.(guarded := false, connectTimer := false, interviewTimer := false, disconnectTimer := false)
  }

  function Update(s: State, i: nat, a: Attempt): State
    requires i < |s.attempts|
  {
    s.(attempts := s.attempts[i := a])
  }

  function NewAttempt(call: nat, tryCount: int): Attempt {
    Attempt(call, tryCount, false, true, false, false, false, false, false, false, false, NotStarted, 0)
  }

  /** `connectHandler` up to its first await. */
  function ConnectHandler(s: State, i: nat, error: bool): State
    requires i < |s.attempts|
  {
    var a := s.attempts[i].(connectTimer := false);
    if !a.guarded then Update(s, i, a)
    else if error || !s.listening then Update(s, i, ClearGuard(a))
    else if s.inProgress then Update(s, i, a)
    else Update(s, i, a.(interviewTimer := true, phase := Services)).(inProgress := true)
  }

  /** `openChannel` on a peripheral found in state `p`. */
  function OpenChannel(s: State, call: nat, tryCount: int, p: Peripheral): State {
    if s.closed || !s.listening || tryCount > MAX_TRIES || p == Unknown || s.open || s.inProgress || p == Error then s
    else
      var a := NewAttempt(call, tryCount);
      match p
      case Connected =>
        ConnectHandler(s.(attempts := s.attempts + [a.(connected := true)]), |s.attempts|, false)
      case InDisconnect =>
        s.(attempts := s.attempts + [a.(tryCount := tryCount - 1, waiting := true, disconnectTimer := true,
                                        onDisconnect := true)])
      case _ =>
        s.(attempts := s.attempts + [a.(connectTimer := true, onConnect := true, onDisconnect := true,
                                        connecting := true)])
  }

  /** The attempt as its retry handler leaves it. */
  function Retried(a: Attempt): Attempt {
    ClearGuard(a).(onConnect := false, onDisconnect := false, retries := a.retries + 1)
  }

  /** `reTryHandler`. */
  function Retry(s: State, i: nat, p: Peripheral): State
    requires i < |s.attempts|
  {
    var a := Retried(s.attempts[i]);
    OpenChannel(Update(s, i, a).(inProgress := false), a.call, a.tryCount + 1, p)
  }

  /** The `finally` block of the connect handler. */
  function Finally(s: State, i: nat): State
    requires i < |s.attempts|
  {
    Update(s, i, ClearGuard(s.attempts[i]).(phase := Finished)).(inProgress := false)
  }

  /** The handler has seen the last service: clean up and reject. */
  function NoMoreServices(s: State, i: nat): State
    requires i < |s.attempts|
  {
    var t := Finally(s, i);
    Update(t, i, t.attempts[i].(onDisconnect := false))
  }

  /** What the characteristics seen so far lead to. */
  datatype Progress = ReadMore | Missing(moreServices: bool) | Complete

  function NextService(s: State, i: nat, moreServices: bool): State
    requires i < |s.attempts|
  {
    if moreServices then Update(s, i, s.attempts[i].(phase := Characteristics)) else NoMoreServices(s, i)
  }

  function Interview(s: State, i: nat, progress: Progress): State
    requires i < |s.attempts|
  {
    var a := s.attempts[i];
    if !a.guarded then Finally(s, i)
    else
      match progress
      case ReadMore => Update(s, i, a.(phase := Reading))
      case Missing(moreServices) => NextService(s, i, moreServices)
      case Complete => Update(s, i, a.(interviewTimer := false, onDisconnect := false, phase := Creating)).(open := true)
  }

  datatype Event =
    | Call(p: Peripheral)
    | Listen
    | Close
    | ConnectEvent(i: nat, error: bool)
    | DisconnectEvent(i: nat, p: Peripheral)
    | ConnectRejects(i: nat, p: Peripheral)
    | ConnectResolves(i: nat)
    | ConnectTimeout(i: nat)
    | DisconnectTimeout(i: nat)
    | InterviewTimeout(i: nat)
    | ServicesFound(i: nat, moreServices: bool)
    | Interviewed(i: nat, progress: Progress)
    | Created(i: nat, moreServices: bool)
    | CreateRejects(i: nat)
    | Disconnected(i: nat, p: Peripheral)
    | Rejects(i: nat)

  /** The promise of a connect rejects only when the channel of its attempt is already being created. */
  predicate RejectsLate(s: State, i: nat) {
    i < |s.attempts| && s.attempts[i].guarded && s.attempts[i].phase in {Creating, Disconnecting}
  }

  /** Which events can happen. Unless `lenient`, no connect rejects as late as that. */
  predicate Enabled(s: State, e: Event, lenient: bool) {
    match e
    case Call(_) => true
    case Listen => true
    case Close => true
    case ConnectEvent(i, _) => i < |s.attempts| && s.attempts[i].onConnect
    case DisconnectEvent(i, _) => i < |s.attempts| && s.attempts[i].onDisconnect
    case ConnectRejects(i, _) => i < |s.attempts| && s.attempts[i].connecting && (lenient || !RejectsLate(s, i))
    case ConnectResolves(i) => i < |s.attempts| && s.attempts[i].connecting
    case ConnectTimeout(i) => i < |s.attempts| && s.attempts[i].connectTimer
    case DisconnectTimeout(i) => i < |s.attempts| && s.attempts[i].disconnectTimer
    case InterviewTimeout(i) => i < |s.attempts| && s.attempts[i].interviewTimer
    case ServicesFound(i, _) => i < |s.attempts| && s.attempts[i].phase == Services
    case Interviewed(i, _) => i < |s.attempts| && s.attempts[i].phase in {Characteristics, Reading}
    case Created(i, _) => i < |s.attempts| && s.attempts[i].phase == Creating
    case CreateRejects(i) => i < |s.attempts| && s.attempts[i].phase == Creating
    case Disconnected(i, _) => i < |s.attempts| && s.attempts[i].phase == Disconnecting
    case Rejects(i) =>
      i < |s.attempts| && s.attempts[i].phase in {Services, Characteristics, Reading, Disconnecting}
  }

  function Apply(s: State, e: Event): State
    requires Enabled(s, e, true)
  {
    match e
    case Call(p) => OpenChannel(s.(calls := s.calls + 1), s.calls, 1, p)
    case Listen => s.(listening := true)
    case Close => s.(closed := true, open := false)
    case ConnectEvent(i, error) =>
      ConnectHandler(Update(s, i, s.attempts[i].(onConnect := false, connected := !error)), i, error)
    case DisconnectEvent(i, p) => Retry(s, i, p)
    case ConnectRejects(i, p) =>
      var t := Update(s, i, s.attempts[i].(connecting := false));
      if s.attempts[i].guarded then Retry(t, i, p) else t
    case ConnectResolves(i) => Update(s, i, s.attempts[i].(connecting := false))
    case ConnectTimeout(i) => Update(s, i, ClearGuard(s.attempts[i]).(onConnect := false, onDisconnect := false))
    case DisconnectTimeout(i) => Update(s, i, ClearGuard(s.attempts[i]).(onDisconnect := false))
    case InterviewTimeout(i) => Update(s, i, ClearGuard(s.attempts[i]).(onDisconnect := false))
    case ServicesFound(i, moreServices) =>
      if s.attempts[i].guarded then NextService(s, i, moreServices) else Finally(s, i)
    case Interviewed(i, progress) => Interview(s, i, progress)
    case Created(i, moreServices) =>
      NextService(Update(s, i, ClearGuard(s.attempts[i])).(inProgress := false), i, moreServices)
    case CreateRejects(i) =>
      Update(s, i, s.attempts[i].(phase := Disconnecting)).(inProgress := false, open := false)
    case Disconnected(i, p) => Finally(Retry(s, i, p), i)
    case Rejects(i) => Finally(s, i)
  }

  function Step(s: State, e: Event, lenient: bool): State {
    if Enabled(s, e, lenient) then Apply(s, e) else s
  }

  /** Any interleaving: events that cannot happen where they stand are skipped. */
  function Run(s: State, events: seq<Event>, lenient: bool): State
    decreases events
  {
    if events == [] then s else Run(Step(s, events[0], lenient), events[1..], lenient)
  }

  // ---- Invariants ----

  predicate AttemptInv(a: Attempt) {
    && (a.connectTimer || a.disconnectTimer || a.interviewTimer ==> a.guarded)
    && (a.phase in {Creating, Disconnecting} ==> !a.onDisconnect && a.retries == 0)
    && (a.phase != NotStarted ==> a.connected && !a.onConnect)
    && (a.onConnect ==> a.retries == 0)
    && (a.onDisconnect ==> a.retries == 0)
    && (a.guarded ==> a.retries == 0)
    && a.retries <= 1
  }

  /** The attempts of an outer call that connect or interview. */
  function Tries(attempts: seq<Attempt>, call: nat): nat {
    if attempts == [] then 0
    else Tries(attempts[..|attempts| - 1], call)
         + if attempts[|attempts| - 1].call == call && !attempts[|attempts| - 1].waiting then 1 else 0
  }

  /** The attempts of a call follow one another: all but the last have been retried. */
  predicate Chained(attempts: seq<Attempt>) {
    forall i, j | 0 <= i < j < |attempts| && attempts[i].call == attempts[j].call :: attempts[i].retries > 0
  }

  predicate Counted(attempts: seq<Attempt>) {
    forall i | 0 <= i < |attempts| && attempts[i].retries == 0 ::
      attempts[i].tryCount == Tries(attempts, attempts[i].call)
  }

  ghost predicate Bounded(attempts: seq<Attempt>) {
    forall call: nat :: Tries(attempts, call) <= MAX_TRIES
  }

  ghost predicate Inv(s: State) {
    && (forall i | 0 <= i < |s.attempts| :: AttemptInv(s.attempts[i]))
    && (forall i | 0 <= i < |s.attempts| :: s.attempts[i].call < s.calls)
    && Chained(s.attempts)
    && Counted(s.attempts)
    && Bounded(s.attempts)
  }

  // ---- Updating one attempt ----

  predicate SameIdentity(a: Attempt, b: Attempt) {
    a.call == b.call && a.tryCount == b.tryCount && a.waiting == b.waiting
  }

  lemma {:induction false} TriesUpdate(attempts: seq<Attempt>, i: nat, a: Attempt, call: nat)
    requires i < |attempts| && SameIdentity(attempts[i], a)
    ensures Tries(attempts[i := a], call) == Tries(attempts, call)
    decreases |attempts|
  {
    var init := attempts[..|attempts| - 1];
    var updated := attempts[i := a];
    if i < |init| {
      TriesUpdate(init, i, a, call);
      assert updated[..|updated| - 1] == init[i := a];
    } else {
      assert updated[..|updated| - 1] == init;
    }
  }

  lemma UpdateKeepsInv(s: State, i: nat, a: Attempt)
    requires Inv(s) && i < |s.attempts|
    requires SameIdentity(s.attempts[i], a) && AttemptInv(a) && a.retries >= s.attempts[i].retries
    ensures Inv(Update(s, i, a))
  {
    var t := Update(s, i, a);
    forall call: nat ensures Tries(t.attempts, call) == Tries(s.attempts, call) {
      TriesUpdate(s.attempts, i, a, call);
    }
  }

  lemma ConnectHandlerUpdates(s: State, i: nat, error: bool)
    requires i < |s.attempts|
    ensures
      var t := ConnectHandler(s, i, error);
      |t.attempts| == |s.attempts| && t == Update(s, i, t.attempts[i]).(inProgress := t.inProgress)
      && SameIdentity(s.attempts[i], t.attempts[i]) && t.attempts[i].retries == s.attempts[i].retries
  {
  }

  lemma ConnectHandlerAttempt(s: State, i: nat, error: bool)
    requires i < |s.attempts| && AttemptInv(s.attempts[i])
    requires s.attempts[i].phase == NotStarted && !s.attempts[i].onConnect && (error || s.attempts[i].connected)
    ensures |ConnectHandler(s, i, error).attempts| == |s.attempts| && AttemptInv(ConnectHandler(s, i, error).attempts[i])
  {
  }

  lemma ConnectHandlerKeepsInv(s: State, i: nat, error: bool)
    requires Inv(s) && i < |s.attempts|
    requires s.attempts[i].phase == NotStarted && !s.attempts[i].onConnect && (error || s.attempts[i].connected)
    ensures Inv(ConnectHandler(s, i, error))
    ensures |ConnectHandler(s, i, error).attempts| == |s.attempts|
  {
    ConnectHandlerUpdates(s, i, error);
    ConnectHandlerAttempt(s, i, error);
    UpdateKeepsInv(s, i, ConnectHandler(s, i, error).attempts[i]);
  }

  // ---- Adding an attempt ----

  lemma TriesAppend(attempts: seq<Attempt>, a: Attempt, call: nat)
    ensures Tries(attempts + [a], call) == Tries(attempts, call) + if a.call == call && !a.waiting then 1 else 0
  {
    assert (attempts + [a])[..|attempts|] == attempts;
  }

  /** A call may add an attempt when all its earlier ones have been retried. */
  predicate MayTry(s: State, call: nat, tryCount: int) {
    && call < s.calls
    && (forall i | 0 <= i < |s.attempts| && s.attempts[i].call == call :: s.attempts[i].retries > 0)
    && tryCount == Tries(s.attempts, call) + 1
  }

  lemma AppendKeepsInv(s: State, a: Attempt)
    requires Inv(s) && AttemptInv(a) && a.retries == 0
    requires MayTry(s, a.call, if a.waiting then a.tryCount + 1 else a.tryCount)
    requires a.tryCount <= MAX_TRIES
    ensures Inv(s.(attempts := s.attempts + [a]))
  {
    var attempts := s.attempts + [a];
    forall call: nat
      ensures Tries(attempts, call) == Tries(s.attempts, call) + if a.call == call && !a.waiting then 1 else 0
    {
      TriesAppend(s.attempts, a, call);
    }
  }

  lemma OpenChannelKeepsInv(s: State, call: nat, tryCount: int, p: Peripheral)
    requires Inv(s) && MayTry(s, call, tryCount)
    ensures Inv(OpenChannel(s, call, tryCount, p))
    ensures s.attempts <= OpenChannel(s, call, tryCount, p).attempts
  {
    var t := OpenChannel(s, call, tryCount, p);
    if t != s {
      if p == Connected {
        var a := NewAttempt(call, tryCount).(connected := true);
        var added := s.(attempts := s.attempts + [a]);
        AppendKeepsInv(s, a);
        ConnectHandlerKeepsInv(added, |s.attempts|, false);
      } else {
        AppendKeepsInv(s, t.attempts[|s.attempts|]);
      }
    }
  }

  lemma TriesOfNewCall(attempts: seq<Attempt>, call: nat)
    requires forall i | 0 <= i < |attempts| :: attempts[i].call != call
    ensures Tries(attempts, call) == 0
  {}

  /** The state in which a retry opens the channel again. */
  function Reopening(s: State, i: nat): State
    requires i < |s.attempts|
  {
    Update(s, i, Retried(s.attempts[i])).(inProgress := false)
  }

  lemma RetriedMayTry(s: State, i: nat)
    requires Inv(s) && i < |s.attempts| && s.attempts[i].retries == 0
    requires s.attempts[i].phase !in {Creating, Disconnecting}
    ensures Inv(Reopening(s, i)) && MayTry(Reopening(s, i), s.attempts[i].call, s.attempts[i].tryCount + 1)
  {
    UpdateKeepsInv(s, i, Retried(s.attempts[i]));
    TriesUpdate(s.attempts, i, Retried(s.attempts[i]), s.attempts[i].call);
  }

  lemma RetryReopens(s: State, i: nat, p: Peripheral)
    requires i < |s.attempts|
    ensures Retry(s, i, p) == OpenChannel(Reopening(s, i), s.attempts[i].call, s.attempts[i].tryCount + 1, p)
  {
  }

  lemma RetryKeepsInv(s: State, i: nat, p: Peripheral)
    requires Inv(s) && i < |s.attempts| && s.attempts[i].retries == 0
    requires s.attempts[i].phase !in {Creating, Disconnecting}
    ensures Inv(Retry(s, i, p))
  {
    RetryReopens(s, i, p);
    RetriedMayTry(s, i);
    OpenChannelKeepsInv(Reopening(s, i), s.attempts[i].call, s.attempts[i].tryCount + 1, p);
  }

  lemma FinallyKeepsInv(s: State, i: nat)
    requires Inv(s) && i < |s.attempts| && s.attempts[i].phase != NotStarted
    ensures Inv(Finally(s, i))
  {
    UpdateKeepsInv(s, i, ClearGuard(s.attempts[i]).(phase := Finished));
  }

  lemma NextServiceKeepsInv(s: State, i: nat, moreServices: bool)
    requires Inv(s) && i < |s.attempts| && s.attempts[i].phase != NotStarted
    ensures Inv(NextService(s, i, moreServices))
  {
    if moreServices {
      UpdateKeepsInv(s, i, s.attempts[i].(phase := Characteristics));
    } else {
      FinallyKeepsInv(s, i);
      var t := Finally(s, i);
      UpdateKeepsInv(t, i, t.attempts[i].(onDisconnect := false));
    }
  }

  lemma InterviewKeepsInv(s: State, i: nat, progress: Progress)
    requires Inv(s) && i < |s.attempts| && s.attempts[i].phase in {Characteristics, Reading}
    ensures Inv(Interview(s, i, progress))
  {
    if s.attempts[i].guarded {
      match progress
      case ReadMore => UpdateKeepsInv(s, i, s.attempts[i].(phase := Reading));
      case Missing(moreServices) => NextServiceKeepsInv(s, i, moreServices);
      case Complete =>
        UpdateKeepsInv(s, i, s.attempts[i].(interviewTimer := false, onDisconnect := false, phase := Creating));
    } else {
      FinallyKeepsInv(s, i);
    }
  }

  /** When `disconnectAsync` is over the handler retries and then finishes; finishing it first gives the same. */
  lemma DisconnectedKeepsInv(s: State, i: nat, p: Peripheral)
    requires Inv(s) && i < |s.attempts| && s.attempts[i].phase == Disconnecting
    ensures Inv(Finally(Retry(s, i, p), i))
  {
    var a := s.attempts[i].(phase := Finished);
    var t := Update(s, i, a);
    UpdateKeepsInv(s, i, a);
    RetryKeepsInv(t, i, p);
    RetryThenFinish(s, i, p);
  }

  lemma OpenChannelAppends(s: State, i: nat, a: Attempt, call: nat, tryCount: int, p: Peripheral)
    requires i < |s.attempts|
    ensures i < |OpenChannel(s, call, tryCount, p).attempts|
    ensures Update(OpenChannel(s, call, tryCount, p), i, a) == OpenChannel(Update(s, i, a), call, tryCount, p)
  {
    var t, u := OpenChannel(s, call, tryCount, p), OpenChannel(Update(s, i, a), call, tryCount, p);
    assert t.attempts[i := a] == u.attempts;
  }

  lemma RetryThenFinish(s: State, i: nat, p: Peripheral)
    requires i < |s.attempts|
    ensures i < |Retry(s, i, p).attempts|
    ensures Finally(Retry(s, i, p), i)
         == Retry(Update(s, i, s.attempts[i].(phase := Finished)), i, p).(inProgress := false)
  {
    var before := Reopening(s, i);
    var finished := Retried(s.attempts[i]).(phase := Finished);
    var call, tryCount := s.attempts[i].call, s.attempts[i].tryCount + 1;
    RetryReopens(s, i, p);
    RetryReopens(Update(s, i, s.attempts[i].(phase := Finished)), i, p);
    OpenChannelAppends(before, i, finished, call, tryCount, p);
    OpenChannelKeeps(before, i, call, tryCount, p);
    FinishedReopening(s, i);
  }

  lemma FinishedReopening(s: State, i: nat)
    requires i < |s.attempts|
    ensures Update(Reopening(s, i), i, Retried(s.attempts[i]).(phase := Finished))
         == Reopening(Update(s, i, s.attempts[i].(phase := Finished)), i)
  {
    var a := Retried(s.attempts[i]).(phase := Finished);
    assert s.attempts[i := Retried(s.attempts[i])][i := a] == s.attempts[i := a];
    assert s.attempts[i := s.attempts[i].(phase := Finished)][i := a] == s.attempts[i := a];
  }

  lemma OpenChannelKeeps(s: State, i: nat, call: nat, tryCount: int, p: Peripheral)
    requires i < |s.attempts|
    ensures i < |OpenChannel(s, call, tryCount, p).attempts|
    ensures OpenChannel(s, call, tryCount, p).attempts[i] == s.attempts[i]
  {}

  lemma TimeoutKeepsInv(s: State, e: Event)
    requires Inv(s) && Enabled(s, e, false)
    requires e.ConnectTimeout? || e.DisconnectTimeout? || e.InterviewTimeout? || e.ConnectResolves? || e.CreateRejects?
    ensures Inv(Apply(s, e))
  {
    UpdateKeepsInv(s, e.i, Apply(s, e).attempts[e.i]);
  }

  lemma ConnectionEventKeepsInv(s: State, e: Event)
    requires Inv(s) && Enabled(s, e, false)
    requires e.ConnectEvent? || e.DisconnectEvent? || e.ConnectRejects?
    ensures Inv(Apply(s, e))
  {
    match e
    case ConnectEvent(i, error) =>
      var a := s.attempts[i].(onConnect := false, connected := !error);
      UpdateKeepsInv(s, i, a);
      ConnectHandlerKeepsInv(Update(s, i, a), i, error);
    case DisconnectEvent(i, p) =>
      RetryKeepsInv(s, i, p);
    case ConnectRejects(i, p) =>
      var a := s.attempts[i].(connecting := false);
      UpdateKeepsInv(s, i, a);
      if a.guarded {
        RetryKeepsInv(Update(s, i, a), i, p);
      }
  }

  lemma HandlerEventKeepsInv(s: State, e: Event)
    requires Inv(s) && Enabled(s, e, false)
    requires e.ServicesFound? || e.Interviewed? || e.Created? || e.Disconnected? || e.Rejects?
    ensures Inv(Apply(s, e))
  {
    match e
    case ServicesFound(i, moreServices) =>
      if s.attempts[i].guarded {
        NextServiceKeepsInv(s, i, moreServices);
      } else {
        FinallyKeepsInv(s, i);
      }
    case Interviewed(i, progress) =>
      InterviewKeepsInv(s, i, progress);
    case Created(i, moreServices) =>
      UpdateKeepsInv(s, i, ClearGuard(s.attempts[i]));
      NextServiceKeepsInv(Update(s, i, ClearGuard(s.attempts[i])).(inProgress := false), i, moreServices);
    case Disconnected(i, p) =>
      DisconnectedKeepsInv(s, i, p);
    case Rejects(i) =>
      FinallyKeepsInv(s, i);
  }

  lemma StepKeepsInv(s: State, e: Event)
    requires Inv(s)
    ensures Inv(Step(s, e, false))
  {
    if Enabled(s, e, false) {
      match e
      case Call(p) =>
        TriesOfNewCall(s.attempts, s.calls);
        OpenChannelKeepsInv(s.(calls := s.calls + 1), s.calls, 1, p);
      case Listen =>
      case Close =>
      case ConnectEvent(_, _) => ConnectionEventKeepsInv(s, e);
      case DisconnectEvent(_, _) => ConnectionEventKeepsInv(s, e);
      case ConnectRejects(_, _) => ConnectionEventKeepsInv(s, e);
      case ConnectResolves(_) => TimeoutKeepsInv(s, e);
      case ConnectTimeout(_) => TimeoutKeepsInv(s, e);
      case DisconnectTimeout(_) => TimeoutKeepsInv(s, e);
      case InterviewTimeout(_) => TimeoutKeepsInv(s, e);
      case CreateRejects(_) => TimeoutKeepsInv(s, e);
      case _ => HandlerEventKeepsInv(s, e);
    }
  }

  lemma {:induction false} RunKeepsInv(s: State, events: seq<Event>)
    requires Inv(s)
    ensures Inv(Run(s, events, false))
    decreases events
  {
    if events != [] {
      StepKeepsInv(s, events[0]);
      RunKeepsInv(Step(s, events[0], false), events[1..]);
    }
  }

  lemma InitialInv()
    ensures Inv(Initial)
  {}

  // ---- The theorems ----

  /** In every interleaving each attempt starts at most one retry. */
  lemma OneRetryPerAttempt(events: seq<Event>, i: nat)
    requires i < |Run(Initial, events, false).attempts|
    ensures Run(Initial, events, false).attempts[i].retries <= 1
  {
    InitialInv();
    RunKeepsInv(Initial, events);
  }

  /** In every interleaving an outer call makes at most three attempts that connect or interview. */
  lemma AtMostThreeTries(events: seq<Event>, call: nat)
    ensures Tries(Run(Initial, events, false).attempts, call) <= 3
  {
    InitialInv();
    RunKeepsInv(Initial, events);
  }

  /** In every interleaving no timer of an attempt runs once its guard is gone. */
  lemma TimersStopWithTheGuard(events: seq<Event>, i: nat)
    requires i < |Run(Initial, events, false).attempts| && !Run(Initial, events, false).attempts[i].guarded
    ensures
      var a := Run(Initial, events, false).attempts[i];
      !a.connectTimer && !a.disconnectTimer && !a.interviewTimer
  {
    InitialInv();
    RunKeepsInv(Initial, events);
  }

  // ---- The assumption on the driver is needed ----

  /** The failed creation of a channel and the disconnect that follows it. */
  function CreationFails(s: State, i: nat, p: Peripheral): State {
    var t := Step(s, CreateRejects(i), true);
    Step(t, Disconnected(i, p), true)
  }

  lemma RetryKeepsAttempt(s: State, i: nat, p: Peripheral)
    requires i < |s.attempts|
    ensures i < |Retry(s, i, p).attempts| && Retry(s, i, p).attempts[i] == Retried(s.attempts[i])
  {
    RetryReopens(s, i, p);
    OpenChannelKeeps(Reopening(s, i), i, s.attempts[i].call, s.attempts[i].tryCount + 1, p);
  }

  lemma RejectionRetries(s: State, i: nat, p: Peripheral)
    requires Enabled(s, ConnectRejects(i, p), true) && s.attempts[i].guarded
    ensures
      var t := Step(s, ConnectRejects(i, p), true);
      i < |t.attempts| && t.attempts[i] == Retried(s.attempts[i].(connecting := false))
  {
    RetryKeepsAttempt(Update(s, i, s.attempts[i].(connecting := false)), i, p);
  }

  lemma DisconnectRetries(s: State, i: nat, p: Peripheral)
    requires i < |s.attempts| && s.attempts[i].phase == Disconnecting
    ensures
      var t := Step(s, Disconnected(i, p), true);
      i < |t.attempts| && t.attempts[i].retries == s.attempts[i].retries + 1
  {
    RetryKeepsAttempt(s, i, p);
  }

  lemma CreationRejects(s: State, i: nat)
    requires i < |s.attempts| && s.attempts[i].phase in {Creating, Disconnecting}
    ensures
      var t := Step(s, CreateRejects(i), true);
      i < |t.attempts| && t.attempts[i] == s.attempts[i].(phase := Disconnecting)
  {
  }

  lemma FailureRetries(s: State, i: nat, p: Peripheral)
    requires i < |s.attempts| && s.attempts[i].phase in {Creating, Disconnecting}
    ensures
      var t := CreationFails(s, i, p);
      i < |t.attempts| && t.attempts[i].retries == s.attempts[i].retries + 1
  {
    CreationRejects(s, i);
    DisconnectRetries(Step(s, CreateRejects(i), true), i, p);
  }

  /** From any state of the invariant, a rejection as late as that makes its attempt retry once, and when the creation
      of the channel then fails, a second time. */
  lemma LateRejectionRetriesTwice(s: State, i: nat, p: Peripheral, q: Peripheral)
    requires Inv(s) && Enabled(s, ConnectRejects(i, p), true) && RejectsLate(s, i)
    ensures
      var t := CreationFails(Step(s, ConnectRejects(i, p), true), i, q);
      i < |t.attempts| && t.attempts[i].retries == 2
  {
    RejectionRetries(s, i, p);
    FailureRetries(Step(s, ConnectRejects(i, p), true), i, q);
  }

  /** Of all events that can happen just the late rejection breaks the invariant. */
  lemma OnlyLateRejectionsBreakInv(s: State, e: Event)
    requires Inv(s) && Enabled(s, e, true)
    ensures Inv(Apply(s, e)) <==> !(e.ConnectRejects? && RejectsLate(s, e.i))
  {
    if e.ConnectRejects? && RejectsLate(s, e.i) {
      RetryKeepsAttempt(Update(s, e.i, s.attempts[e.i].(connecting := false)), e.i, e.p);
      assert !AttemptInv(Apply(s, e).attempts[e.i]);
    } else {
      StepKeepsInv(s, e);
    }
  }

  lemma {:induction false} RunLast(s: State, events: seq<Event>, e: Event, lenient: bool)
    ensures Run(s, events + [e], lenient) == Step(Run(s, events, lenient), e, lenient)
    decreases events
  {
    var all := events + [e];
    if events == [] {
      assert all == [e] && Run(Step(s, e, lenient), [], lenient) == Step(s, e, lenient);
    } else {
      assert all[1..] == events[1..] + [e];
      RunLast(Step(s, events[0], lenient), events[1..], e, lenient);
    }
  }

  ghost predicate Reachable(s: State) {
    exists events :: Run(Initial, events, false) == s
  }

  lemma ReachableStep(s: State, e: Event)
    requires Reachable(s)
    ensures Reachable(Step(s, e, false))
  {
    var events :| Run(Initial, events, false) == s;
    RunLast(Initial, events, e, false);
  }

  function Sole(a: Attempt, inProgress: bool, open: bool): State {
    State(false, true, inProgress, open, 1, [a])
  }

  /** The only attempt of a run, interviewing, while its connect promise is still unsettled. */
  const Interviewing: Attempt :=
    Attempt(0, 1, false, true, false, false, true, false, true, true, true, Services, 0)

  /** The same attempt creating its channel. */
  const Late: Attempt := Interviewing.(interviewTimer := false, onDisconnect := false, phase := Creating)

  lemma InterviewingIsReachable()
    ensures Reachable(Sole(Interviewing, true, false))
  {
    assert Run(Initial, [], false) == Initial;
    var s := Initial.(listening := true);
    var a := NewAttempt(0, 1).(connectTimer := true, onConnect := true, onDisconnect := true, connecting := true);
    ReachableStep(Initial, Listen);
    ReachableStep(s, Call(Idle));
    assert [] + [a] == [a];
    assert Step(s, Call(Idle), false) == Sole(a, false, false);
    ReachableStep(Sole(a, false, false), ConnectEvent(0, false));
  }

  /** States in which a connect could reject late are reached without any late rejection. */
  lemma LateIsReachable()
    ensures Reachable(Sole(Late, true, true)) && RejectsLate(Sole(Late, true, true), 0)
    ensures Enabled(Sole(Late, true, true), ConnectRejects(0, Idle), true)
  {
    InterviewingIsReachable();
    var a := Interviewing.(phase := Characteristics);
    ReachableStep(Sole(Interviewing, true, false), ServicesFound(0, true));
    assert Step(Sole(Interviewing, true, false), ServicesFound(0, true), false) == Sole(a, true, false);
    ReachableStep(Sole(a, true, false), Interviewed(0, Complete));
  }
}
