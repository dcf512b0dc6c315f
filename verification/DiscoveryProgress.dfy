/** That the discovery loop of BleScanner.ts goes on when it should, and what single events do to the scanner. */
module DiscoveryProgress {
  import opened Options
  import opened Texts
  import opened DeviceQueries
  import opened ContinuousDiscovery

  // ---- The stored devices ----

  /** A device that is found again takes the place that it had; a new one goes to the end. */
  lemma {:induction false} StoreIs(before: seq<Device>, old': Device, after: seq<Device>, d: Device)
    requires forall x | x in before :: x.address != d.address
    ensures old'.address == d.address ==> Store(before + [old'] + after, d) == before + [d] + after
    ensures Store(before, d) == before + [d]
  {
    var all := before + [old'] + after;
    if before != [] {
      assert before[0] in before && all[1..] == before[1..] + [old'] + after;
      StoreIs(before[1..], old', after, d);
      assert [before[0]] + (before[1..] + [d]) == before + [d];
      assert [before[0]] + (before[1..] + [d] + after) == before + [d] + after;
    } else {
      assert all[1..] == after;
    }
  }

  /** Exactly the device at the address is forgotten. */
  lemma {:induction false} ForgottenIs(devices: seq<Device>, address: nat, d: Device)
    ensures d in Without(devices, address) <==> d in devices && d.address != address
  {
    if devices != [] {
      ForgottenIs(devices[1..], address, d);
    }
  }

  // ---- The waiters ----

  /** A new waiter replaces the one under its key; its search is then no longer resolved, all others are as before. */
  lemma RegisterIs(s: Scanner, key: Text, w: Waiter, other: nat)
    ensures
      var t := Register(s, key, w);
      && t.devices == s.devices && w.owner !in t.resolved
      && (other != w.owner ==> (other in t.resolved <==> other in s.resolved))
      && key in t.waiters && t.waiters[key] == w
      && forall k | k != key :: (k in t.waiters <==> k in s.waiters) && (k in s.waiters ==> t.waiters[k] == s.waiters[k])
  {
  }

  /** The waiter under a key is finished, whoever waits there, but by a device that is known already only if it wants to
      hear of those. */
  lemma FinishIs(s: Scanner, key: Text, isUpdated: bool)
    ensures
      var t := Finish(s, key, isUpdated);
      t.devices == s.devices
      && if key in s.waiters && (isUpdated ==> s.waiters[key].onUpdated)
         then t.waiters == (map k | k in s.waiters && k != key :: s.waiters[k])
              && t.resolved == s.resolved + {s.waiters[key].owner}
         else t == s
  {
  }

  /** Closing removes all waiters, and resolves those with a timer. */
  lemma CloseIs(s: Scanner, owner: nat)
    ensures CloseScanner(s).waiters == map[] && CloseScanner(s).devices == s.devices
    ensures owner in CloseScanner(s).resolved <==>
              owner in s.resolved || exists key | key in s.waiters :: s.waiters[key].timed && s.waiters[key].owner == owner
  {
  }

  /** A device wakes the search of its lookup: at once when it is new, otherwise only a waiter that wants to hear of known
      devices. */
  lemma DiscoveryWakes(s: Scanner, d: Device, key: Text)
    requires FindKey(s.waiters.Keys, d) == Some(key) && key in s.waiters
    ensures
      var t := Discover(s, d);
      d in t.devices
      && if Stored(s.devices, d.address) && !s.waiters[key].onUpdated
         then t.waiters == s.waiters && t.resolved == s.resolved
         else key !in t.waiters && s.waiters[key].owner in t.resolved
  {
  }

  // ---- The loop ----

  /** What the search is told of in one turn: every stored match at an address that is not yet reported. */
  lemma {:induction false} FreshHoldsNew(found: seq<Device>, reported: set<nat>, d: Device)
    requires d in found && d.address !in reported
    ensures exists x | x in Fresh(found, reported) :: x.address == d.address
    decreases found
  {
    if found[0].address !in reported {
      assert found[0] in Fresh(found, reported);
      if found[0].address != d.address {
        FreshHoldsNew(found[1..], reported + {found[0].address}, d);
        var x :| x in Fresh(found[1..], reported + {found[0].address}) && x.address == d.address;
        assert x in Fresh(found, reported);
      }
    } else {
      FreshHoldsNew(found[1..], reported, d);
    }
  }

  /** A turn of a search that goes on: the callback is told of every match that was not reported, and then the search
      waits under its key, without a timer and not to be woken by known devices; or it ends, as its time is up. */
  lemma TurnTellsAndWaits(q: Query, s: State)
    requires MayResume(q, s) && !s.search.cancelled
    ensures
      var t := Step(q, s, Resumed);
      && (forall d | d in s.scanner.devices && Accepts(q.id, d) && d.address !in s.search.reported ::
            exists x | x in t.search.calls :: x.address == d.address)
      && (if q.endTime.Some? && q.endTime.value <= s.now then t.search.phase == Exited(true) && t.scanner == s.scanner
          else t.search.phase == Waiting && KeyOf(q.id) in t.scanner.waiters
               && t.scanner.waiters[KeyOf(q.id)] == Waiter(q.owner, false, false) && q.owner !in t.scanner.resolved)
  {
    var found := Matching(s.scanner.devices, q.id);
    forall d | d in s.scanner.devices && Accepts(q.id, d) && d.address !in s.search.reported
      ensures exists x | x in Step(q, s, Resumed).search.calls :: x.address == d.address
    {
      MatchingAre(s.scanner.devices, q.id, d);
      FreshHoldsNew(found, s.search.reported, d);
    }
  }

  /** The search goes on when it starts, and after a wait exactly when its waiter was resolved. */
  lemma ResumesIff(q: Query, s: State)
    ensures Step(q, s, Resumed) != s ==>
              s.search.phase == Starting || (s.search.phase == Waiting && q.owner in s.scanner.resolved)
    ensures s.search.phase == Starting || (s.search.phase == Waiting && q.owner in s.scanner.resolved) ==> MayResume(q, s)
  {
  }

  /** A new match is reported: it wakes a search that waits undisturbed, whose next turn tells the callback of it. */
  lemma NewMatchIsReported(q: Query, s: State, d: Device)
    requires Attentive(q, s) && Effective(q.id).productId.None? && s.search.phase.Waiting? && !s.search.cancelled
    requires Accepts(q.id, d) && !Stored(s.scanner.devices, d.address) && d.address !in s.search.reported
    ensures
      var t := Step(q, Step(q, s, Discovered(d)), Resumed);
      exists x | x in t.search.calls :: x.address == d.address
  {
    var woken := Step(q, s, Discovered(d));
    if q.owner !in s.scanner.resolved {
      SomeWaiterIsWoken(s.scanner.waiters.Keys, q.id, d);
      assert FindKey(s.scanner.waiters.Keys, d) == Some(KeyOf(q.id));
    }
    assert MayResume(q, woken) && d in woken.scanner.devices;
    TurnTellsAndWaits(q, woken);
  }

  /** Finishing the waiter under its key lets a waiting search go on, on the devices that are there then. */
  lemma FinishedSearchGoesOn(q: Query, s: State)
    requires s.search.phase.Waiting?
    requires KeyOf(q.id) in s.scanner.waiters && s.scanner.waiters[KeyOf(q.id)].owner == q.owner
    ensures
      var t := Step(q, s, Finished(KeyOf(q.id)));
      MayResume(q, t) && t.search == s.search && t.scanner.devices == s.scanner.devices && KeyOf(q.id) !in t.scanner.waiters
  {
  }

  /** A device that is forgotten is not stored any more, and not told of again until it is discovered again. */
  lemma ForgettingIs(q: Query, s: State, address: nat, d: Device)
    ensures
      var t := Step(q, s, Forgotten(address));
      t.search == s.search && t.scanner.waiters == s.scanner.waiters && t.scanner.resolved == s.scanner.resolved
      && (d in t.scanner.devices <==> d in s.scanner.devices && d.address != address)
  {
    ForgottenIs(s.scanner.devices, address, d);
  }

  /** A turn ends the search exactly when its time has passed. */
  lemma TimeEndsAt(q: Query, s: State, time: nat)
    requires MayResume(q, s) && !s.search.cancelled
    ensures Step(q, Step(q, s, Elapsed(time)), Resumed).search.phase
         == if q.endTime.Some? && q.endTime.value <= s.now + time then Exited(true) else Waiting
  {
  }

  lemma {:induction false} RunLast(q: Query, s: State, events: seq<Event>, e: Event)
    ensures Run(q, s, []) == s && Run(q, s, events + [e]) == Step(q, Run(q, s, events), e)
    decreases events
  {
    if events == [] {
      assert [] + [e] == [e] && [e][1..] == [];
    } else {
      assert (events + [e])[1..] == events[1..] + [e];
      RunLast(q, Step(q, s, events[0]), events[1..], e);
    }
  }

  /** Cancelling ends a search that waits under its own key: its next turn reports nothing more. */
  lemma CancelledSearchEnds(q: Query, s: State)
    requires s.search.phase.Waiting?
    requires KeyOf(q.id) in s.scanner.waiters && s.scanner.waiters[KeyOf(q.id)].owner == q.owner
    ensures
      var t := Step(q, Step(q, s, Cancelled), Resumed);
      t.search.phase == Exited(false) && t.search.calls == s.search.calls
  {
  }

  /** A search that has ended is told of nothing, in any run. */
  lemma {:induction false} EndedSearchIsOver(q: Query, s: State, events: seq<Event>)
    requires s.search.phase.Exited?
    ensures Run(q, s, events).search.phase == s.search.phase && Run(q, s, events).search.calls == s.search.calls
    decreases events
  {
    if events != [] {
      EndedSearchIsOver(q, Step(q, s, events[0]), events[1..]);
    }
  }

  /** A search starts afresh, on the devices and waiters that are there. */
  lemma StartIs(q: Query, scanner: Scanner, now: nat)
    ensures
      var s := Started(q, scanner, now);
      && s.scanner.devices == scanner.devices && s.scanner.waiters == scanner.waiters
      && s.search.phase == Starting && s.search.calls == [] && s.search.reported == {} && !s.search.cancelled
      && s.now == now && Faithful(q, s) && MayResume(q, s)
  {
  }
}
