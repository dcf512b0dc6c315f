/** The methods of BleScanner.ts as they update the scanner and the local state of a continuous search; each is proved
    to compute what the discovery machine does. */
module BleScannerObject {
  import opened Options
  import opened Texts
  import opened DeviceQueries
  import opened ContinuousDiscovery

  class BleScanner {
    var recordWaiters: map<Text, Waiter>
    var discoveredMatterDevices: seq<Device>
    var resolved: set<nat>

    function View(): Scanner
      reads this
    {
      Scanner(recordWaiters, discoveredMatterDevices, resolved)
    }

    constructor ()
      ensures View() == Scanner(map[], [], {})
    {
      recordWaiters, discoveredMatterDevices, resolved := map[], [], {};
    }

    method RegisterWaiterPromise(key: Text, waiter: Waiter)
      modifies this`recordWaiters, this`resolved
      ensures View() == Register(old(View()), key, waiter)
    {
      recordWaiters := recordWaiters[key := waiter];
      resolved := resolved - {waiter.owner};
    }

    method FinishWaiter(key: Text, isUpdatedRecord: bool)
      modifies this`recordWaiters, this`resolved
      ensures View() == Finish(old(View()), key, isUpdatedRecord)
    {
      if key !in recordWaiters {
        return;
      }
      if isUpdatedRecord && !recordWaiters[key].onUpdated {
        return;
      }
      resolved := resolved + {recordWaiters[key].owner};
      recordWaiters := recordWaiters - {key};
    }

    /** `close`: exactly the waiters with a timer are resolved, all are gone. */
    method Close()
      modifies this`recordWaiters, this`resolved
      ensures View() == CloseScanner(old(View()))
    {
      var keys := recordWaiters.Keys;
      ghost var before := View();
      while keys != {}
        invariant keys == recordWaiters.Keys && recordWaiters.Keys <= before.waiters.Keys
        invariant forall key | key in recordWaiters :: recordWaiters[key] == before.waiters[key]
        invariant CloseScanner(View()) == CloseScanner(before)
        decreases |keys|
      {
        var key :| key in keys;
        if recordWaiters[key].timed {
          resolved := resolved + {recordWaiters[key].owner};
        }
        recordWaiters := recordWaiters - {key};
        keys := keys - {key};
      }
    }

    /** The deletion of a stored record. */
    method Delete(address: nat)
      modifies this`discoveredMatterDevices
      ensures View() == old(View()).(devices := Without(old(discoveredMatterDevices), address))
    {
      var kept: seq<Device> := [];
      for i := 0 to |discoveredMatterDevices|
        invariant discoveredMatterDevices == old(discoveredMatterDevices)
        invariant kept + Without(discoveredMatterDevices[i..], address) == Without(discoveredMatterDevices, address)
      {
        WithoutStep(kept, discoveredMatterDevices, i, address);
        if discoveredMatterDevices[i].address != address {
          kept := kept + [discoveredMatterDevices[i]];
        }
      }
      assert discoveredMatterDevices[|discoveredMatterDevices|..] == [] && kept + [] == kept;
      discoveredMatterDevices := kept;
    }

    method FindCommissionableQueryIdentifier(d: Device) returns (key: Option<Text>)
      ensures key == FindKey(recordWaiters.Keys, d)
      ensures key.Some? ==> key.value in recordWaiters
    {
      var longKey := KeyOf(ForLong(d.discriminator));
      if longKey in recordWaiters {
        return Some(longKey);
      }
      var shortKey := KeyOf(ForShort(d.ShortDiscriminator()));
      if shortKey in recordWaiters {
        return Some(shortKey);
      }
      var parts := Split(d.VP(), PLUS);
      var vendorKey := KeyOf(ForVendor(ParseInt(parts[0])));
      if vendorKey in recordWaiters {
        return Some(vendorKey);
      }
      if |parts| > 1 {
        var productKey := KeyOf(ForVendor(ParseInt(parts[1])));
        if productKey in recordWaiters {
          return Some(productKey);
        }
      }
      key := if STAR in recordWaiters then Some(STAR) else None;
    }

    method HandleDiscoveredDevice(d: Device)
      modifies this
      ensures View() == Discover(old(View()), d)
    {
      var existing := Stored(discoveredMatterDevices, d.address);
      discoveredMatterDevices := Store(discoveredMatterDevices, d);
      var key := FindCommissionableQueryIdentifier(d);
      if key.Some? {
        FinishWaiter(key.value, existing);
      }
    }

    /** The filter, which is chosen by the query, over the stored devices. */
    method GetCommissionableDevices(id: Identifier) returns (found: seq<Device>)
      ensures found == Matching(discoveredMatterDevices, id)
    {
      found := [];
      for i := 0 to |discoveredMatterDevices|
        invariant found + Matching(discoveredMatterDevices[i..], id) == Matching(discoveredMatterDevices, id)
      {
        assert discoveredMatterDevices[i..][1..] == discoveredMatterDevices[i + 1..];
        if Accepts(id, discoveredMatterDevices[i]) {
          found := found + [discoveredMatterDevices[i]];
        }
      }
      assert discoveredMatterDevices[|discoveredMatterDevices|..] == [];
    }
  }

  lemma WithoutStep(kept: seq<Device>, devices: seq<Device>, i: nat, address: nat)
    requires i < |devices|
    ensures kept + Without(devices[i..], address)
         == (if devices[i].address != address then kept + [devices[i]] else kept) + Without(devices[i + 1..], address)
  {
    assert devices[i..][0] == devices[i] && devices[i..][1..] == devices[i + 1..];
    var rest := Without(devices[i + 1..], address);
    assert kept + ([devices[i]] + rest) == kept + [devices[i]] + rest && [] + rest == rest;
  }

  lemma SweepStep(found: seq<Device>, i: nat, reported: set<nat>, calls: seq<Device>)
    requires i < |found|
    ensures
      calls + Fresh(found[i..], reported)
      == if found[i].address in reported then calls + Fresh(found[i + 1..], reported)
         else calls + [found[i]] + Fresh(found[i + 1..], reported + {found[i].address})
    ensures Addresses(found[..i + 1]) == Addresses(found[..i]) + {found[i].address}
  {
    assert found[i..][1..] == found[i + 1..];
    assert found[..i + 1] == found[..i] + [found[i]];
  }

  lemma SweepEnds(found: seq<Device>, reported: set<nat>)
    ensures found[0..] == found && Addresses(found[..0]) == {}
    ensures found[..|found|] == found && Fresh(found[|found|..], reported) == []
  {
  }

  /** The local variables of `findCommissionableDevicesContinuously`, and the clock. */
  class ContinuousSearch {
    const q: Query
    const scanner: BleScanner
    var phase: Phase
    var discoveredDevices: set<nat>
    var calls: seq<Device>
    var canceled: bool
    var now: nat

    function View(): Search
      reads this
    {
      Search(phase, discoveredDevices, calls, canceled)
    }

    function Whole(): State
      reads this, scanner
    {
      State(scanner.View(), View(), now)
    }

    /** The callback was told of each discovered address once, and of matches only. */
    ghost predicate Valid()
      reads this, scanner
    {
      Faithful(q, Whole())
    }

    constructor (q: Query, scanner: BleScanner, now: nat)
      ensures this.q == q && this.scanner == scanner
      ensures Valid() && Whole() == State(scanner.View(), Search(Starting, {}, [], false), now)
    {
      this.q, this.scanner := q, scanner;
      phase, discoveredDevices, calls, canceled, this.now := Starting, {}, [], false, now;
    }

    /** What the cancel signal does. */
    method Cancel()
      requires Valid()
      modifies this`canceled, scanner`recordWaiters, scanner`resolved
      ensures Valid() && Whole() == Step(q, old(Whole()), Event.Cancelled)
    {
      canceled := true;
      scanner.FinishWaiter(KeyOf(q.id), false);
    }

    /** The `forEach` over the matches. */
    method Sweep()
      modifies this`discoveredDevices, this`calls
      ensures
        var found := Matching(scanner.discoveredMatterDevices, q.id);
        calls == old(calls) + Fresh(found, old(discoveredDevices))
        && discoveredDevices == old(discoveredDevices) + Addresses(found)
    {
      var found := scanner.GetCommissionableDevices(q.id);
      ghost var before, told := discoveredDevices, calls + Fresh(found, discoveredDevices);
      SweepEnds(found, before);
      for i := 0 to |found|
        invariant calls + Fresh(found[i..], discoveredDevices) == told
        invariant discoveredDevices == before + Addresses(found[..i])
      {
        SweepStep(found, i, discoveredDevices, calls);
        if found[i].address !in discoveredDevices {
          discoveredDevices := discoveredDevices + {found[i].address};
          calls := calls + [found[i]];
        }
      }
      SweepEnds(found, discoveredDevices);
      assert calls + [] == calls;
    }

    /** From the loop condition to the next await: unless cancelled, every stored match has then been reported. */
    method Continue()
      requires Valid()
      modifies this, scanner`recordWaiters, scanner`resolved
      ensures Valid() && Whole() == Turn(q, old(Whole()))
      ensures !canceled ==> AllReported(q, Whole())
    {
      TurnIsFaithful(q, Whole());
      TurnReportsAll(q, Whole());
      if canceled {
        phase := Exited(false);
        return;
      }
      Sweep();
      if q.endTime.Some? {
        if q.endTime.value <= now {
          phase := Exited(true);
          return;
        }
      }
      phase := Waiting;
      scanner.RegisterWaiterPromise(KeyOf(q.id), Waiter(q.owner, false, false));
    }

    /** Any event, of the search or of others that use the scanner. */
    method Perform(e: Event)
      requires Valid()
      modifies this, scanner
      ensures Valid() && Whole() == Step(q, old(Whole()), e)
    {
      StepIsFaithful(q, Whole(), e);
      match e {
        case Discovered(d) => scanner.HandleDiscoveredDevice(d);
        case Registered(key, w) =>
          if w.owner != q.owner {
            scanner.RegisterWaiterPromise(key, w);
          }
        case Finished(key) => scanner.FinishWaiter(key, false);
        case Forgotten(address) => scanner.Delete(address);
        case Cancelled => Cancel();
        case Elapsed(time) => now := now + time;
        case Resumed =>
          if MayResume(q, Whole()) {
            Continue();
          }
        case ScannerClosed => scanner.Close();
      }
    }

    /** A whole search: the object runs the machine, told its callback of each address once and of matches only, and,
        if it ran undisturbed, has reported every stored match whenever it waits. */
    method PerformAll(events: seq<Event>)
      requires Valid()
      modifies this, scanner
      ensures Whole() == Run(q, old(Whole()), events)
      ensures DistinctAddresses(calls) && discoveredDevices == Addresses(calls)
      ensures forall d | d in calls :: Accepts(q.id, d)
      ensures old(Attentive(q, Whole()) && QuietRun(q, Whole(), events)) && Effective(q.id).productId.None? ==>
                phase == Waiting && q.owner !in scanner.resolved ==> AllReported(q, Whole())
    {
      ghost var start := Whole();
      if Attentive(q, start) && QuietRun(q, start, events) && Effective(q.id).productId.None? {
        WaitingHasReportedAll(q, start, events);
      }
      for i := 0 to |events|
        invariant Valid() && Run(q, Whole(), events[i..]) == Run(q, start, events)
      {
        assert events[i..][0] == events[i] && events[i..][1..] == events[i + 1..];
        Perform(events[i]);
      }
      assert events[|events|..] == [];
    }
  }

  lemma TurnIsFaithful(q: Query, s: State)
    requires Faithful(q, s)
    ensures Faithful(q, Turn(q, s))
  {
    SweepIsFaithful(q, s);
  }
}
