/** The write-behind store of StorageBackendAsyncJsonFile.ts as a state machine: every `await` ends a step, so
    mutations, the two stages of a write, the callbacks of its promise and `close` interleave. A run may stop
    after any step, so whatever holds in all reachable states also holds after a crash. */
module JsonFileStorage {
  import opened Options

  type Store = map<string, string>

  /** What is on disk under a name: nothing, the beginning of a text, or one whole state of the store, named by
      its position in the history of the store. */
  datatype Content = Absent | Partial | Whole(version: nat)

  datatype Stage = Writing | Renaming | Done | Failed

  /** A run of `#writeAndMoveFile`; `cleared` once its `finally` callback has run. */
  datatype Write = Write(version: nat, stage: Stage, cleared: bool) {
    predicate InFlight() {
      stage.Writing? || stage.Renaming?
    }
  }

  datatype Handle = NoHandle | Current(write: nat)

  /** Where `close` is: it first waits for the current write, if any, then for its own. */
  datatype Closing = NotClosing | AwaitingCurrent(write: nat) | AwaitingOwn(write: nat) | Closed | CloseFailed

  datatype State = State(
    history: seq<Store>,
    file: Content,
    temp: Content,
    writes: seq<Write>,
    handle: Handle,
    closing: Closing)

  function Memory(s: State): Store
    requires s.history != []
  {
    s.history[|s.history| - 1]
  }

  /** After `initialize`: memory is what the file held, or empty when there is no file yet. */
  function Initialized(found: Option<Store>): State {
    if found.Some? then State([found.value], Whole(0), Absent, [], NoHandle, NotClosing)
    else State([map[]], Absent, Absent, [], NoHandle, NotClosing)
  }

  datatype Event =
    | Mutate(store: Store, recent: bool)
    | TempWritten(i: nat)
    | Renamed(i: nat)
    | WriteFails(i: nat)
    | ClearHandle(i: nat)
    | Close
    | ResumeClose
    | EndClose

  /** The synchronous part of `storeIt` that starts a write. */
  function StartWrite(s: State): State
    requires s.history != []
  {
    s.(writes := s.writes + [Write(|s.history| - 1, Writing, false)], temp := Partial, handle := Current(|s.writes|))
  }

  /** `set`, `delete` or `clear`, then `commit`: a write starts unless the store is closed, a write is known to be
      running, or the store was initialised more than a second ago (`!recent`). */
  function MutateAndCommit(s: State, store: Store, recent: bool): State {
    var t := s.(history := s.history + [store]);
    if t.closing == Closed || t.handle.Current? || !recent then t else StartWrite(t)
  }

  function SetStage(s: State, i: nat, stage: Stage): State
    requires i < |s.writes|
  {
    s.(writes := s.writes[i := s.writes[i].(stage := stage)])
  }

  /** `storeIt(true)` as `close` runs it. */
  function BeginClose(s: State): State
    requires s.history != []
  {
    if s.handle.Current? then s.(closing := AwaitingCurrent(s.handle.write))
    else StartWrite(s).(closing := AwaitingOwn(|s.writes|))
  }

  /** The callbacks of a promise run in the order in which they were attached: `close` resumes before the handle is
      cleared, and ends only after it is. */
  predicate Enabled(s: State, e: Event) {
    s.history != [] &&
    match e
    case Mutate(_, _) => true
    case TempWritten(i) => i < |s.writes| && s.writes[i].stage == Writing
    case Renamed(i) => i < |s.writes| && s.writes[i].stage == Renaming
    case WriteFails(i) => i < |s.writes| && s.writes[i].InFlight()
    case ClearHandle(i) =>
      i < |s.writes| && !s.writes[i].InFlight() && !s.writes[i].cleared && s.closing != AwaitingCurrent(i)
    case Close => s.closing.NotClosing? || s.closing.CloseFailed?
    case ResumeClose => s.closing.AwaitingCurrent? && s.closing.write < |s.writes| && !s.writes[s.closing.write].InFlight()
    case EndClose =>
      && s.closing.AwaitingOwn? && s.closing.write < |s.writes| && !s.writes[s.closing.write].InFlight()
      && forall i | 0 <= i < |s.writes| && !s.writes[i].InFlight() :: s.writes[i].cleared
  }

  function Apply(s: State, e: Event): State
    requires Enabled(s, e)
  {
    match e
    case Mutate(store, recent) => MutateAndCommit(s, store, recent)
    case TempWritten(i) => SetStage(s, i, Renaming).(temp := Whole(s.writes[i].version))
    case Renamed(i) =>
      if s.temp == Absent then SetStage(s, i, Failed) else SetStage(s, i, Done).(file := s.temp, temp := Absent)
    case WriteFails(i) => SetStage(s, i, Failed)
    case ClearHandle(i) => s.(writes := s.writes[i := s.writes[i].(cleared := true)], handle := NoHandle)
    case Close => BeginClose(s)
    case ResumeClose =>
      if s.writes[s.closing.write].stage == Failed then s.(closing := CloseFailed)
      else StartWrite(s).(closing := AwaitingOwn(|s.writes|))
    case EndClose => s.(closing := if s.writes[s.closing.write].stage == Failed then CloseFailed else Closed)
  }

  function Step(s: State, e: Event): State {
    if Enabled(s, e) then Apply(s, e) else s
  }

  function Run(s: State, events: seq<Event>): State
    decreases events
  {
    if events == [] then s else Run(Step(s, events[0]), events[1..])
  }

  // ---- What callers do ----

  /** A write whose promise has settled and whose callback has run. */
  predicate Over(w: Write) {
    w.cleared && !w.InFlight()
  }

  predicate AllOver(s: State) {
    forall i | 0 <= i < |s.writes| :: Over(s.writes[i])
  }

  /** While `close` runs its own write the handle may be cleared although a write is not over: the callback of the
      write that `close` waited for clears it. */
  predicate HandleLost(s: State) {
    s.closing.AwaitingOwn? && s.handle == NoHandle && !AllOver(s)
  }

  /** The one call to avoid: a mutation that starts a write while the handle is lost. */
  predicate Safe(s: State, e: Event) {
    e.Mutate? && e.recent ==> !HandleLost(s)
  }

  predicate SafeRun(s: State, events: seq<Event>)
    decreases events
  {
    events == [] || (Safe(s, events[0]) && SafeRun(Step(s, events[0]), events[1..]))
  }

  /** A caller that leaves the store alone while `close` writes. */
  predicate Still(s: State, e: Event) {
    e.Mutate? ==> !s.closing.AwaitingOwn?
  }

  predicate StillRun(s: State, events: seq<Event>)
    decreases events
  {
    events == [] || (Still(s, events[0]) && StillRun(Step(s, events[0]), events[1..]))
  }

  /** A caller whose code does not run between the settling of a write and the callback of its promise. */
  predicate Prompt(s: State, e: Event) {
    e.Mutate? || e.Close? ==> forall i | 0 <= i < |s.writes| && !s.writes[i].InFlight() :: s.writes[i].cleared
  }

  predicate PromptRun(s: State, events: seq<Event>)
    decreases events
  {
    events == [] || (Prompt(s, events[0]) && PromptRun(Step(s, events[0]), events[1..]))
  }

  // ---- Invariant ----

  predicate OnlyLastInFlight(s: State) {
    forall i | 0 <= i < |s.writes| && s.writes[i].InFlight() :: i == |s.writes| - 1
  }

  /** The handle names every write that is not over. */
  predicate Handled(s: State) {
    forall i | 0 <= i < |s.writes| && !Over(s.writes[i]) :: s.handle == Current(i)
  }

  /** Only while its own write is the last one can `close` have lost the handle. */
  predicate HandleInv(s: State) {
    && (s.handle.Current? ==> s.handle.write == |s.writes| - 1 && !s.writes[s.handle.write].cleared)
    && (forall i | 0 <= i < |s.writes| && s.writes[i].InFlight() :: !s.writes[i].cleared)
    && (s.closing.AwaitingCurrent? ==> s.handle == Current(s.closing.write))
    && (s.closing.AwaitingOwn? ==> s.closing.write < |s.writes|)
    && (Handled(s) || (s.closing.AwaitingOwn? && s.closing.write == |s.writes| - 1))
  }

  predicate VersionInv(s: State) {
    && s.history != []
    && s.file != Partial
    && (s.file.Whole? ==> s.file.version < |s.history|)
    && (s.writes != [] ==>
          var w := s.writes[|s.writes| - 1];
          && w.version < |s.history|
          && (s.file.Whole? ==> s.file.version <= w.version)
          && (w.stage == Renaming ==> s.temp == Whole(w.version))
          && (w.stage == Done ==> s.file == Whole(w.version)))
    && (s.closing.AwaitingOwn? && s.closing.write < |s.writes| && s.writes[s.closing.write].stage == Done ==>
          s.file.Whole? && s.writes[s.closing.write].version <= s.file.version)
  }

  predicate Inv(s: State) {
    OnlyLastInFlight(s) && HandleInv(s) && VersionInv(s)
  }

  /** A file, once there, stays and does not go back. */
  predicate Forward(a: Content, b: Content) {
    a.Whole? ==> b.Whole? && a.version <= b.version
  }

  lemma StartWriteKeepsInv(s: State)
    requires Inv(s) && AllOver(s) && s.handle == NoHandle
    ensures Inv(StartWrite(s))
    ensures Inv(StartWrite(s).(closing := AwaitingOwn(|s.writes|)))
  {}

  lemma NotLostIsOver(s: State)
    requires Inv(s) && s.handle == NoHandle && !HandleLost(s)
    ensures AllOver(s)
  {}

  lemma MutateKeepsInv(s: State, store: Store, recent: bool)
    requires Inv(s) && Safe(s, Mutate(store, recent))
    ensures Inv(MutateAndCommit(s, store, recent))
  {
    var t := s.(history := s.history + [store]);
    assert Inv(t);
    if !(t.closing == Closed || t.handle.Current? || !recent) {
      NotLostIsOver(t);
      StartWriteKeepsInv(t);
    }
  }

  lemma StageKeepsInv(s: State, e: Event)
    requires Inv(s) && Enabled(s, e)
    requires e.TempWritten? || e.Renamed? || e.WriteFails?
    ensures Inv(Apply(s, e))
    ensures Forward(s.file, Apply(s, e).file)
  {}

  lemma ClearKeepsInv(s: State, i: nat)
    requires Inv(s) && Enabled(s, ClearHandle(i))
    ensures Inv(Apply(s, ClearHandle(i)))
  {}

  lemma CloseKeepsInv(s: State, e: Event)
    requires Inv(s) && Enabled(s, e)
    requires e.Close? || e.ResumeClose? || e.EndClose?
    ensures Inv(Apply(s, e))
    ensures Apply(s, e).file == s.file
  {
    if e.Close? && s.handle == NoHandle {
      NotLostIsOver(s);
      StartWriteKeepsInv(s);
    }
  }

  lemma StepKeepsInv(s: State, e: Event)
    requires Inv(s) && Safe(s, e)
    ensures Inv(Step(s, e))
    ensures Forward(s.file, Step(s, e).file)
    ensures s.history <= Step(s, e).history
  {
    if Enabled(s, e) {
      match e
      case Mutate(store, recent) => MutateKeepsInv(s, store, recent);
      case Close => CloseKeepsInv(s, e);
      case ResumeClose => CloseKeepsInv(s, e);
      case EndClose => CloseKeepsInv(s, e);
      case ClearHandle(i) => ClearKeepsInv(s, i);
      case _ => StageKeepsInv(s, e);
    }
  }

  lemma {:induction false} RunKeepsInv(s: State, events: seq<Event>)
    requires Inv(s) && SafeRun(s, events)
    ensures Inv(Run(s, events))
    ensures Forward(s.file, Run(s, events).file)
    ensures s.history <= Run(s, events).history
    decreases events
  {
    if events != [] {
      StepKeepsInv(s, events[0]);
      RunKeepsInv(Step(s, events[0]), events[1..]);
    }
  }

  lemma InitializedInv(found: Option<Store>)
    ensures Inv(Initialized(found))
  {}

  // ---- One write at a time ----

  predicate AtMostOneInFlight(s: State) {
    forall i, j | 0 <= i < j < |s.writes| :: !(s.writes[i].InFlight() && s.writes[j].InFlight())
  }

  predicate SingleThroughout(s: State, events: seq<Event>)
    decreases events
  {
    AtMostOneInFlight(s) && (events == [] || SingleThroughout(Step(s, events[0]), events[1..]))
  }

  /** Exactly when a mutation puts a second write in flight: while `close` runs its own write, after the callback
      of the write that `close` waited for has cleared the handle. */
  lemma SecondWriter(s: State, store: Store, recent: bool)
    requires Inv(s)
    ensures !AtMostOneInFlight(Step(s, Mutate(store, recent))) <==>
              && s.closing.AwaitingOwn? && s.handle == NoHandle && recent
              && s.writes[s.closing.write].InFlight()
  {
    var t := Step(s, Mutate(store, recent));
    if s.closing.AwaitingOwn? && s.handle == NoHandle && recent && s.writes[s.closing.write].InFlight() {
      assert t.writes[s.closing.write].InFlight() && t.writes[|s.writes|].InFlight();
    } else if Safe(s, Mutate(store, recent)) {
      MutateKeepsInv(s, store, recent);
    } else {
      assert forall i | 0 <= i < |s.writes| :: !s.writes[i].InFlight();
    }
  }

  lemma {:induction false} SafeIsSingle(s: State, events: seq<Event>)
    requires Inv(s) && SafeRun(s, events)
    ensures SingleThroughout(s, events)
    decreases events
  {
    if events != [] {
      StepKeepsInv(s, events[0]);
      SafeIsSingle(Step(s, events[0]), events[1..]);
    }
  }

  lemma {:induction false} SingleIsSafe(s: State, events: seq<Event>)
    requires Inv(s) && PromptRun(s, events) && SingleThroughout(s, events)
    ensures SafeRun(s, events)
    decreases events
  {
    if events != [] {
      var e := events[0];
      if !Safe(s, e) {
        SecondWriter(s, e.store, true);
        assert false;
      }
      StepKeepsInv(s, e);
      SingleIsSafe(Step(s, e), events[1..]);
    }
  }

  /** In every run without such a mutation, whatever the callers do otherwise and also while `close` writes, at most
      one write is in flight at any time. */
  lemma SingleWriter(found: Option<Store>, events: seq<Event>)
    requires SafeRun(Initialized(found), events)
    ensures SingleThroughout(Initialized(found), events)
  {
    InitializedInv(found);
    SafeIsSingle(Initialized(found), events);
  }

  /** Over whole runs the condition is exact, unless callers run in the midst of the callbacks of one promise. */
  lemma SingleWriterIff(found: Option<Store>, events: seq<Event>)
    requires PromptRun(Initialized(found), events)
    ensures SingleThroughout(Initialized(found), events) <==> SafeRun(Initialized(found), events)
  {
    InitializedInv(found);
    if SafeRun(Initialized(found), events) {
      SafeIsSingle(Initialized(found), events);
    }
    if SingleThroughout(Initialized(found), events) {
      SingleIsSafe(Initialized(found), events);
    }
  }

  /** A mutation while the handle is lost and the own write of `close` is in flight. */
  predicate Overlapping(s: State, e: Event) {
    e.Mutate? && e.recent && s.closing.AwaitingOwn? && s.handle == NoHandle
    && s.closing.write < |s.writes| && s.writes[s.closing.write].InFlight()
  }

  predicate ClearRun(s: State, events: seq<Event>)
    decreases events
  {
    events == [] || (!Overlapping(s, events[0]) && ClearRun(Step(s, events[0]), events[1..]))
  }

  lemma {:induction false} SingleIsClear(s: State, events: seq<Event>)
    requires s.history != [] && SingleThroughout(s, events)
    ensures ClearRun(s, events)
    decreases events
  {
    if events != [] {
      var e := events[0];
      var t := Step(s, e);
      if Overlapping(s, e) {
        assert t.writes[s.closing.write].InFlight() && t.writes[|s.writes|].InFlight();
      }
      SingleIsClear(t, events[1..]);
    }
  }

  /** With no restriction on callers at all, every such mutation is a second write. */
  lemma OverlapIsASecondWrite(found: Option<Store>, events: seq<Event>)
    ensures SingleThroughout(Initialized(found), events) ==> ClearRun(Initialized(found), events)
  {
    if SingleThroughout(Initialized(found), events) {
      SingleIsClear(Initialized(found), events);
    }
  }

  // ---- The file ----

  /** However such a run goes, and wherever it stops, the file holds one whole state that the store had, or is not
      there; the latter only if there was none when the store was initialised. */
  lemma FileIsAWholeState(found: Option<Store>, events: seq<Event>)
    requires SafeRun(Initialized(found), events)
    ensures
      var s := Run(Initialized(found), events);
      if s.file.Whole? then s.file.version < |s.history| else s.file == Absent && found.None?
  {
    InitializedInv(found);
    RunKeepsInv(Initialized(found), events);
  }

  lemma {:induction false} RunConcat(s: State, a: seq<Event>, b: seq<Event>)
    ensures Run(s, a + b) == Run(Run(s, a), b)
    ensures SafeRun(s, a + b) <==> SafeRun(s, a) && SafeRun(Run(s, a), b)
    decreases a
  {
    if a == [] {
      assert a + b == b;
    } else {
      assert (a + b)[1..] == a[1..] + b;
      RunConcat(Step(s, a[0]), a[1..], b);
    }
  }

  /** Later in the run the file is still there and never goes back to an earlier state, and history is only added to. */
  lemma FileMovesForward(found: Option<Store>, earlier: seq<Event>, later: seq<Event>)
    requires SafeRun(Initialized(found), earlier + later)
    ensures
      var s, t := Run(Initialized(found), earlier), Run(Initialized(found), earlier + later);
      Forward(s.file, t.file) && s.history <= t.history
  {
    InitializedInv(found);
    RunConcat(Initialized(found), earlier, later);
    RunKeepsInv(Initialized(found), earlier);
    RunKeepsInv(Run(Initialized(found), earlier), later);
  }

  /** A `close` that ends without an error leaves in the file the state that it took, or a later one. */
  lemma CloseStoresItsSnapshot(found: Option<Store>, events: seq<Event>)
    requires SafeRun(Initialized(found), events)
    requires
      var s := Run(Initialized(found), events);
      Enabled(s, EndClose) && Apply(s, EndClose).closing == Closed
    ensures
      var s, t := Run(Initialized(found), events), Apply(Run(Initialized(found), events), EndClose);
      t.file.Whole? && s.writes[s.closing.write].version <= t.file.version < |t.history|
  {
    InitializedInv(found);
    RunKeepsInv(Initialized(found), events);
  }

  predicate StillInv(s: State) {
    s.closing.AwaitingOwn? ==>
      s.closing.write == |s.writes| - 1 && s.writes[s.closing.write].version == |s.history| - 1
  }

  lemma StillStepKeepsInv(s: State, e: Event)
    requires Inv(s) && StillInv(s) && Still(s, e)
    ensures StillInv(Step(s, e))
  {}

  lemma {:induction false} StillRunKeepsInv(s: State, events: seq<Event>)
    requires Inv(s) && StillInv(s) && StillRun(s, events)
    ensures Inv(Run(s, events)) && StillInv(Run(s, events))
    decreases events
  {
    if events != [] {
      StepKeepsInv(s, events[0]);
      StillStepKeepsInv(s, events[0]);
      StillRunKeepsInv(Step(s, events[0]), events[1..]);
    }
  }

  /** If the store was left alone meanwhile, that is what is in memory. */
  lemma CloseFlushes(found: Option<Store>, events: seq<Event>)
    requires StillRun(Initialized(found), events)
    requires
      var s := Run(Initialized(found), events);
      Enabled(s, EndClose) && Apply(s, EndClose).closing == Closed
    ensures
      var t := Apply(Run(Initialized(found), events), EndClose);
      t.file.Whole? && t.file.version < |t.history| && t.history != [] && t.history[t.file.version] == Memory(t)
  {
    InitializedInv(found);
    StillRunKeepsInv(Initialized(found), events);
  }

  // ---- The mutation to avoid ----

  lemma {:induction false} RunLast(s: State, events: seq<Event>, e: Event)
    ensures Run(s, events + [e]) == Step(Run(s, events), e)
  {
    RunConcat(s, events, [e]);
  }

  ghost predicate Reachable(store: Store, s: State) {
    exists events :: Run(Initialized(Some(store)), events) == s
  }

  lemma ReachableStep(store: Store, s: State, e: Event)
    requires Reachable(store, s)
    ensures Reachable(store, Step(s, e))
  {
    var events :| Run(Initialized(Some(store)), events) == s;
    RunLast(Initialized(Some(store)), events, e);
  }

  /** `close` writing while the handle has been cleared. */
  function WithoutHandle(store: Store): State {
    State([store, store], Whole(1), Whole(1), [Write(1, Done, true), Write(1, Renaming, false)], NoHandle, AwaitingOwn(1))
  }

  lemma CloseStarts(store: Store)
    ensures Reachable(store, State([store, store], Whole(1), Absent, [Write(1, Done, false)], Current(0), AwaitingCurrent(0)))
  {
    assert Run(Initialized(Some(store)), []) == Initialized(Some(store));
    var s := State([store, store], Whole(0), Partial, [Write(1, Writing, false)], Current(0), NotClosing);
    ReachableStep(store, Initialized(Some(store)), Mutate(store, true));
    assert Step(Initialized(Some(store)), Mutate(store, true)) == s;
    ReachableStep(store, s, Close);
    var t := s.(closing := AwaitingCurrent(0));
    ReachableStep(store, t, TempWritten(0));
    var u := t.(writes := [Write(1, Renaming, false)], temp := Whole(1));
    assert Step(t, TempWritten(0)) == u;
    ReachableStep(store, u, Renamed(0));
    assert Step(u, Renamed(0)).writes == [Write(1, Done, false)];
  }

  lemma WithoutHandleIsReachable(store: Store)
    ensures Reachable(store, WithoutHandle(store))
  {
    CloseStarts(store);
    var s := State([store, store], Whole(1), Absent, [Write(1, Done, false)], Current(0), AwaitingCurrent(0));
    ReachableStep(store, s, ResumeClose);
    var t := State([store, store], Whole(1), Partial, [Write(1, Done, false), Write(1, Writing, false)], Current(1), AwaitingOwn(1));
    assert Step(s, ResumeClose) == t;
    ReachableStep(store, t, ClearHandle(0));
    var u := t.(writes := [Write(1, Done, true), Write(1, Writing, false)], handle := NoHandle);
    assert Step(t, ClearHandle(0)) == u;
    ReachableStep(store, u, TempWritten(1));
    assert Step(u, TempWritten(1)) == WithoutHandle(store);
  }

  /** What a mutation during the write of `close` can do: both writes use one temporary file, so the first to be
      renamed can put the unfinished text of the second under the name of the store. */
  lemma SecondWriterCanTearTheFile(store: Store)
    ensures exists s :: Reachable(store, s) && s.file == Partial
  {
    WithoutHandleIsReachable(store);
    var s := WithoutHandle(store);
    ReachableStep(store, s, Mutate(store, true));
    var t := Step(s, Mutate(store, true));
    assert t.temp == Partial && t.writes[1] == s.writes[1];
    ReachableStep(store, t, Renamed(1));
    assert Step(t, Renamed(1)).file == Partial;
  }
}
