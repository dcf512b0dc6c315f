/** The methods of StorageBackendAsyncJsonFile.ts, one for each stretch of code between two awaits, and the two stages
    of a write as the file system reports them. Every object is proved to run the storage machine: whatever happens to
    it, its state stays valid unless a caller mutates the store when the handle is lost. */
module JsonFileBackend {
  import opened Options
  import opened JsonFileStorage

  class StorageBackendAsyncJsonFile {
    var store: Store
    var currentStoreIt: Handle
    var closing: Closing
    var past: seq<Store>
    var file: Content
    var temp: Content
    var writes: seq<Write>

    function View(): State
      reads this
    {
      State(past + [store], file, temp, writes, currentStoreIt, closing)
    }

    /** At most one write is in flight, it is the one that the handle names unless `close` has lost the handle, and
        the file holds a whole state of the store that is no later than the one being written. */
    predicate Valid()
      reads this
    {
      Inv(View())
    }

    constructor Initialize(found: Option<Store>)
      ensures Valid() && View() == Initialized(found)
    {
      store := if found.Some? then found.value else map[];
      file := if found.Some? then Whole(0) else Absent;
      currentStoreIt, closing := NoHandle, NotClosing;
      past, temp, writes := [], Absent, [];
      new;
      InitializedInv(found);
    }

    /** `set`, `delete` and `clear`, all of which change the memory and commit. */
    method Change(data: Store, recent: bool)
      requires Valid()
      modifies this
      ensures View() == MutateAndCommit(old(View()), data, recent)
      ensures store == data && past == old(past) + [old(store)] && file == old(file)
      ensures Valid() && AtMostOneInFlight(View()) <== old(Safe(View(), Mutate(data, recent)))
      ensures AtMostOneInFlight(View()) <==>
                !(old(closing.AwaitingOwn? && currentStoreIt == NoHandle && writes[closing.write].InFlight()) && recent)
    {
      if Safe(View(), Mutate(data, recent)) {
        MutateKeepsInv(View(), data, recent);
      }
      SecondWriter(View(), data, recent);
      past := past + [store];
      store := data;
      Commit(recent);
    }

    method Commit(recent: bool)
      modifies this`currentStoreIt, this`temp, this`writes
      ensures View() == if closing == Closed || old(currentStoreIt).Current? || !recent then old(View())
                        else StartWrite(old(View()))
    {
      if closing == Closed {
        return;
      }
      if currentStoreIt.Current? {
        return;
      }
      StoreIt(false, recent);
    }

    /** `storeIt` when there is no current write to wait for. */
    method StoreIt(forced: bool, recent: bool)
      modifies this`currentStoreIt, this`temp, this`writes
      ensures View() == if closing == Closed || (!forced && !recent) then old(View()) else StartWrite(old(View()))
    {
      if closing == Closed {
        return;
      }
      if !forced && !recent {
        return;
      }
      writes := writes + [Write(|past|, Writing, false)];
      temp := Partial;
      currentStoreIt := Current(|writes| - 1);
    }

    method Close()
      requires Valid() && Enabled(View(), Event.Close)
      modifies this
      ensures Valid() && View() == BeginClose(old(View())) && file == old(file)
    {
      CloseKeepsInv(View(), Event.Close);
      if currentStoreIt.Current? {
        closing := AwaitingCurrent(currentStoreIt.write);
      } else {
        StoreIt(true, false);
        closing := AwaitingOwn(currentStoreIt.write);
      }
    }

    /** `close` after the write it waited for has settled. */
    method ResumeAfterCurrent()
      requires Valid() && Enabled(View(), ResumeClose)
      modifies this
      ensures Valid() && View() == Apply(old(View()), ResumeClose) && file == old(file)
    {
      CloseKeepsInv(View(), ResumeClose);
      if writes[closing.write].stage == Failed {
        closing := CloseFailed;
      } else {
        StoreIt(true, false);
        closing := AwaitingOwn(currentStoreIt.write);
      }
    }

    /** `close` after its own write has settled: without an error, the file holds what it wrote, or a later state. */
    method FinishClose()
      requires Valid() && Enabled(View(), EndClose)
      modifies this`closing
      ensures Valid() && View() == Apply(old(View()), EndClose)
      ensures closing == Closed ==> file.Whole? && old(writes[closing.write].version) <= file.version <= |past|
    {
      CloseKeepsInv(View(), EndClose);
      closing := if writes[closing.write].stage == Failed then CloseFailed else Closed;
    }

    /** The `finally` callback of a write. It clears the handle even if that names another write by now. */
    method Forget(write: nat)
      requires Valid() && Enabled(View(), ClearHandle(write))
      modifies this`currentStoreIt, this`writes
      ensures Valid() && View() == Apply(old(View()), ClearHandle(write))
      ensures HandleLost(View()) <==> closing.AwaitingOwn? && !AllOver(View())
    {
      ClearKeepsInv(View(), write);
      currentStoreIt := NoHandle;
      writes := writes[write := writes[write].(cleared := true)];
    }

    /** The two halves of `#writeAndMoveFile`, and their failure. */
    method TempFileWritten(write: nat)
      requires Valid() && Enabled(View(), TempWritten(write))
      modifies this`temp, this`writes
      ensures Valid() && View() == Apply(old(View()), TempWritten(write))
    {
      StageKeepsInv(View(), TempWritten(write));
      temp := Whole(writes[write].version);
      writes := writes[write := writes[write].(stage := Renaming)];
    }

    /** A rename puts the state that its own write took under the name of the store. */
    method TempFileRenamed(write: nat)
      requires Valid() && Enabled(View(), Renamed(write))
      modifies this`file, this`temp, this`writes
      ensures Valid() && View() == Apply(old(View()), Renamed(write))
      ensures file == Whole(writes[write].version) && Forward(old(file), file)
    {
      StageKeepsInv(View(), Renamed(write));
      file, temp := temp, Absent;
      writes := writes[write := writes[write].(stage := Done)];
    }

    method WriteFailed(write: nat)
      requires Valid() && Enabled(View(), WriteFails(write))
      modifies this`writes
      ensures Valid() && View() == Apply(old(View()), WriteFails(write))
    {
      StageKeepsInv(View(), WriteFails(write));
      writes := writes[write := writes[write].(stage := Failed)];
    }

    /** Any event: the object takes the step of the machine. */
    method Perform(e: Event)
      requires Valid()
      modifies this
      ensures View() == Step(old(View()), e)
      ensures old(Safe(View(), e)) ==> Valid() && file != Partial && Forward(old(file), file)
    {
      if Safe(View(), e) {
        StepKeepsInv(View(), e);
      }
      if !Enabled(View(), e) {
        return;
      }
      match e {
        case Mutate(data, recent) => Change(data, recent);
        case TempWritten(i) => TempFileWritten(i);
        case Renamed(i) => TempFileRenamed(i);
        case WriteFails(i) => WriteFailed(i);
        case ClearHandle(i) => Forget(i);
        case Close => Close();
        case ResumeClose => ResumeAfterCurrent();
        case EndClose => FinishClose();
      }
    }

    /** A whole life of the object. */
    method PerformAll(events: seq<Event>)
      requires Valid() && SafeRun(View(), events)
      modifies this
      ensures Valid() && View() == Run(old(View()), events)
      ensures SingleThroughout(old(View()), events)
      ensures file != Partial && Forward(old(file), file)
    {
      ghost var start := View();
      SafeIsSingle(start, events);
      RunKeepsInv(start, events);
      for i := 0 to |events|
        invariant Valid() && SafeRun(View(), events[i..])
        invariant Run(View(), events[i..]) == Run(start, events)
      {
        assert events[i..][0] == events[i] && events[i..][1..] == events[i + 1..];
        Perform(events[i]);
      }
      assert events[|events|..] == [];
    }
  }
}
