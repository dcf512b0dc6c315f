/** What the JSON store holds and stores (StorageBackendAsyncJsonFile.ts): memory is always the last mutation, and these
    are the steps that bring it to the file. */
module JsonFileContents {
  import opened Options
  import opened JsonFileStorage

  // ---- Memory ----

  /** A mutation is what memory holds afterwards, and nothing of the past is forgotten. */
  lemma MutationIsRemembered(s: State, store: Store, recent: bool)
    requires s.history != []
    ensures
      var t := Step(s, Mutate(store, recent));
      t.history == s.history + [store] && Memory(t) == store && t.file == s.file
  {
  }

  lemma OthersKeepMemory(s: State, e: Event)
    requires s.history != [] && !e.Mutate?
    ensures Step(s, e).history == s.history
  {
  }

  /** The store of the last mutation, or what there was before. */
  function Last(before: Store, events: seq<Event>): Store {
    if events == [] then before
    else
      var e := events[|events| - 1];
      if e.Mutate? then e.store else Last(before, events[..|events| - 1])
  }

  /** What was found when the store was initialised: nothing if there was no file. */
  function Before(found: Option<Store>): Store {
    if found.Some? then found.value else map[]
  }

  lemma {:induction false} MemoryOfRun(found: Option<Store>, events: seq<Event>)
    ensures Run(Initialized(found), events).history != []
    ensures Memory(Run(Initialized(found), events)) == Last(Before(found), events)
    decreases |events|
  {
    var s := Initialized(found);
    if events != [] {
      var init, e := events[..|events| - 1], events[|events| - 1];
      assert events == init + [e];
      MemoryOfRun(found, init);
      RunLast(s, init, e);
      if e.Mutate? {
        MutationIsRemembered(Run(s, init), e.store, e.recent);
      } else {
        OthersKeepMemory(Run(s, init), e);
      }
    }
  }

  /** After an undisturbed close the file holds the store of the last mutation, or what was found. */
  lemma CloseStoresTheLastMutation(found: Option<Store>, events: seq<Event>)
    requires StillRun(Initialized(found), events)
    requires
      var s := Run(Initialized(found), events);
      Enabled(s, EndClose) && Apply(s, EndClose).closing == Closed
    ensures
      var t := Apply(Run(Initialized(found), events), EndClose);
      t.file.Whole? && t.file.version < |t.history| && t.history[t.file.version] == Last(Before(found), events)
  {
    CloseFlushes(found, events);
    MemoryOfRun(found, events);
  }

  // ---- Writing ----

  /** Exactly when a mutation starts a write: the store is open, no write is known to run, and it was initialised a
      moment ago. What is written is the new memory. */
  lemma MutationStartsWriteIff(s: State, store: Store, recent: bool)
    requires s.history != []
    ensures
      var t := Step(s, Mutate(store, recent));
      if s.closing != Closed && s.handle == NoHandle && recent
      then |t.writes| == |s.writes| + 1 && t.writes[..|s.writes|] == s.writes
           && t.writes[|s.writes|] == Write(|s.history|, Writing, false)
           && t.handle == Current(|s.writes|) && t.temp == Partial
      else t.writes == s.writes && t.handle == s.handle && t.temp == s.temp
  {
  }

  /** A write that is left to finish brings the state that it took to the file, and then lets go of the handle. */
  lemma WriteFinishes(s: State, i: nat)
    requires i < |s.writes| && s.writes[i].stage == Writing && s.history != [] && s.closing != AwaitingCurrent(i)
    requires !s.writes[i].cleared
    ensures
      var renamed := Step(Step(s, TempWritten(i)), Renamed(i));
      var t := Step(renamed, ClearHandle(i));
      && renamed.file == Whole(s.writes[i].version) && renamed.handle == s.handle
      && renamed == s.(writes := s.writes[i := s.writes[i].(stage := Done)], file := Whole(s.writes[i].version), temp := Absent)
      && t == renamed.(writes := s.writes[i := s.writes[i].(stage := Done, cleared := true)], handle := NoHandle)
  {
    var written := Step(s, TempWritten(i));
    assert written == s.(writes := s.writes[i := s.writes[i].(stage := Renaming)], temp := Whole(s.writes[i].version));
    var renamed := Step(written, Renamed(i));
    assert s.writes[i := s.writes[i].(stage := Renaming)][i := s.writes[i].(stage := Done)]
        == s.writes[i := s.writes[i].(stage := Done)];
    assert renamed.writes[i := s.writes[i].(stage := Done, cleared := true)]
        == s.writes[i := s.writes[i].(stage := Done, cleared := true)];
  }

  /** So a mutation that starts a write which is left to finish is in the file. */
  lemma MutationIsStored(s: State, store: Store)
    requires s.history != [] && s.closing == NotClosing && s.handle == NoHandle
    ensures
      var n := |s.writes|;
      var t := Run(s, [Mutate(store, true), TempWritten(n), Renamed(n)]);
      t.file.Whole? && t.file.version < |t.history| && t.history[t.file.version] == store == Memory(t)
  {
    var n, m := |s.writes|, Step(s, Mutate(store, true));
    MutationStartsWriteIff(s, store, true);
    MutationIsRemembered(s, store, true);
    WriteFinishes(m, n);
    RunOfThree(s, Mutate(store, true), TempWritten(n), Renamed(n));
  }

  /** In particular the first one, whether or not there was a file. */
  lemma FirstMutationIsStored(found: Option<Store>, store: Store)
    ensures
      var s := Initialized(found);
      var t := Run(s, [Mutate(store, true), TempWritten(0), Renamed(0)]);
      && (s.file == Absent <==> found.None?) && s.temp == Absent && s.writes == []
      && t.file.Whole? && t.file.version < |t.history| && t.history[t.file.version] == store
  {
    MutationIsStored(Initialized(found), store);
  }

  lemma RunOfThree(s: State, a: Event, b: Event, c: Event)
    ensures Run(s, [a, b, c]) == Step(Step(Step(s, a), b), c)
  {
    RunLast(s, [a, b], c);
    RunLast(s, [a], b);
    RunLast(s, [], a);
    assert [a, b] + [c] == [a, b, c] && [a] + [b] == [a, b] && [] + [a] == [a];
  }

  /** A failed write leaves the file as it was. */
  lemma FailedWriteLeavesTheFile(s: State, i: nat)
    requires Enabled(s, WriteFails(i))
    ensures
      var t := Step(s, WriteFails(i));
      t.file == s.file && !t.writes[i].InFlight() && |t.writes| == |s.writes|
  {
  }

  // ---- Closing ----

  /** A rename whose temporary file another write has taken away fails, and leaves the file as it was. */
  lemma RenameOfNothingFails(s: State, i: nat)
    requires Enabled(s, Renamed(i)) && s.temp == Absent
    ensures
      var t := Step(s, Renamed(i));
      t.file == s.file && t.temp == Absent && |t.writes| == |s.writes| && t.writes[i].stage == Failed
  {
  }

  /** Once there is a file there is one for ever, in every run whatsoever. */
  lemma {:induction false} FileNeverVanishes(s: State, events: seq<Event>)
    requires s.file != Absent
    ensures Run(s, events).file != Absent
    decreases events
  {
    if events != [] {
      FileNeverVanishes(Step(s, events[0]), events[1..]);
    }
  }

  /** Closing writes memory, also if nothing was changed, and ends when that write is over. */
  lemma CloseWritesAndEnds(s: State)
    requires Inv(s) && (s.closing == NotClosing || s.closing == CloseFailed) && s.handle == NoHandle
    ensures
      var n := |s.writes|;
      var closing := Step(s, Close);
      var written := Step(Step(Step(closing, TempWritten(n)), Renamed(n)), ClearHandle(n));
      var t := Step(written, EndClose);
      && closing.closing == AwaitingOwn(n) && |closing.writes| == n + 1
      && t.closing == Closed && t.history == s.history
      && t.file.Whole? && t.file.version < |t.history| && t.history[t.file.version] == Memory(s)
  {
    var n, closing := |s.writes|, Step(s, Close);
    NotLostIsOver(s);
    assert closing.writes[n] == Write(|s.history| - 1, Writing, false);
    WriteFinishes(closing, n);
    var written := Step(Step(Step(closing, TempWritten(n)), Renamed(n)), ClearHandle(n));
    assert forall i | 0 <= i < n :: written.writes[i] == s.writes[i] && Over(s.writes[i]);
    assert Enabled(written, EndClose);
  }

  /** If a write is running, closing waits for it and then writes again, whatever the first one wrote; if the first one
      failed, closing fails. */
  lemma CloseWaitsFirst(s: State, i: nat)
    requires Inv(s) && (s.closing == NotClosing || s.closing == CloseFailed)
    requires s.handle == Current(i) && !s.writes[i].InFlight()
    ensures
      var waiting := Step(s, Close);
      var t := Step(waiting, ResumeClose);
      && waiting.closing == AwaitingCurrent(i) && waiting.writes == s.writes
      && (if s.writes[i].stage == Failed then t.closing == CloseFailed && t.writes == s.writes
          else t.closing == AwaitingOwn(|s.writes|) && |t.writes| == |s.writes| + 1
               && t.writes[|s.writes|] == Write(|s.history| - 1, Writing, false))
  {
  }

  /** A close whose own write failed is not closed, and can be tried again. */
  lemma CloseFailsWithItsWrite(s: State)
    requires Enabled(s, EndClose)
    ensures
      var t := Step(s, EndClose);
      (t.closing == Closed <==> s.writes[s.closing.write].stage == Done)
      && (t.closing == CloseFailed <==> s.writes[s.closing.write].stage == Failed)
      && (t.closing == CloseFailed ==> Enabled(t, Close))
  {
  }

  /** Once closed the store stays closed, and in no run is anything written again. */
  lemma {:induction false} ClosedWritesNothing(s: State, events: seq<Event>)
    requires s.closing == Closed
    ensures Run(s, events).closing == Closed && |Run(s, events).writes| == |s.writes|
    decreases events
  {
    if events != [] {
      ClosedWritesNothing(Step(s, events[0]), events[1..]);
    }
  }
}
