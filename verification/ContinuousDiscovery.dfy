/** The discovery loop of BleScanner.ts: it reports the stored devices that match, waits for a waiter under its key to
    be woken, and starts over. One step for each stretch of code between two awaits; anything else that uses the
    scanner may happen in between. */
module ContinuousDiscovery {
  import opened Options
  import opened Texts
  import opened DeviceQueries

  /** A waiter: which search waits, whether a device that is already stored wakes it, and whether it has a timer. */
  datatype Waiter = Waiter(owner: nat, onUpdated: bool, timed: bool)

  /** The scanner: `recordWaiters`, `discoveredMatterDevices` in insertion order, and the resolved promises. */
  datatype Scanner = Scanner(waiters: map<Text, Waiter>, devices: seq<Device>, resolved: set<nat>)

  datatype Phase = Starting | Waiting | Exited(timedOut: bool)

  /** The search: `discoveredDevices`, the devices of which the callback was told, in order, and the clock. */
  datatype Search = Search(phase: Phase, reported: set<nat>, calls: seq<Device>, cancelled: bool)

  datatype State = State(scanner: Scanner, search: Search, now: nat)

  /** The search that is followed: its query, its end time, and its identity as an owner of waiters. */
  datatype Query = Query(id: Identifier, endTime: Option<nat>, owner: nat)

  datatype Event =
    | Discovered(device: Device)
    | Registered(key: Text, waiter: Waiter)
    | Finished(key: Text)
    | Forgotten(address: nat)
    | Cancelled
    | Elapsed(time: nat)
    | Resumed
    | ScannerClosed

  // ---- The scanner ----

  predicate Stored(devices: seq<Device>, address: nat) {
    exists i | 0 <= i < |devices| :: devices[i].address == address
  }

  /** `Map.set`: an address that is there keeps its place. */
  function Store(devices: seq<Device>, d: Device): (r: seq<Device>)
    ensures d in r && forall x | x in r :: x == d || x in devices
    ensures forall x | x in devices :: x.address != d.address ==> x in r
  {
    if devices == [] then [d]
    else if devices[0].address == d.address then [d] + devices[1..]
    else [devices[0]] + Store(devices[1..], d)
  }

  function Without(devices: seq<Device>, address: nat): seq<Device> {
    if devices == [] then []
    else (if devices[0].address == address then [] else [devices[0]]) + Without(devices[1..], address)
  }

  function Register(s: Scanner, key: Text, w: Waiter): Scanner {
    s.(waiters := s.waiters[key := w], resolved := s.resolved - {w.owner})
  }

  function Finish(s: Scanner, key: Text, isUpdated: bool): Scanner {
    if key !in s.waiters || (isUpdated && !s.waiters[key].onUpdated) then s
    else s.(resolved := s.resolved + {s.waiters[key].owner}, waiters := s.waiters - {key})
  }

  function Discover(s: Scanner, d: Device): Scanner {
    var found := FindKey(s.waiters.Keys, d);
    var stored := s.(devices := Store(s.devices, d));
    if found.Some? then Finish(stored, found.value, Stored(s.devices, d.address)) else stored
  }

  /** `close`: every waiter is removed, but only those with a timer are resolved. */
  function CloseScanner(s: Scanner): Scanner {
    s.(waiters := map[], resolved := s.resolved + set key | key in s.waiters && s.waiters[key].timed :: s.waiters[key].owner)
  }

  // ---- The search ----

  function Matching(devices: seq<Device>, id: Identifier): seq<Device> {
    if devices == [] then []
    else (if Accepts(id, devices[0]) then [devices[0]] else []) + Matching(devices[1..], id)
  }

  /** The matches of which the callback is told: those at addresses that are not yet reported. */
  function Fresh(found: seq<Device>, reported: set<nat>): seq<Device>
    decreases found
  {
    if found == [] then []
    else if found[0].address in reported then Fresh(found[1..], reported)
    else [found[0]] + Fresh(found[1..], reported + {found[0].address})
  }

  function Addresses(devices: seq<Device>): (r: set<nat>)
    ensures forall d | d in devices :: d.address in r
    ensures forall a | a in r :: exists d :: d in devices && d.address == a
  {
    set d | d in devices :: d.address
  }

  /** One turn of the loop, from its condition to the next await. */
  function Turn(q: Query, s: State): State {
    if s.search.cancelled then s.(search := s.search.(phase := Exited(false)))
    else
      var found := Matching(s.scanner.devices, q.id);
      var swept := s.search.(reported := s.search.reported + Addresses(found),
                             calls := s.search.calls + Fresh(found, s.search.reported));
      if q.endTime.Some? && q.endTime.value <= s.now
      then s.(search := swept.(phase := Exited(true)))
      else s.(search := swept.(phase := Waiting),
              scanner := Register(s.scanner, KeyOf(q.id), Waiter(q.owner, false, false)))
  }

  /** Whether the loop may go on: at first, and once its waiter has been resolved. */
  predicate MayResume(q: Query, s: State) {
    s.search.phase.Starting? || (s.search.phase.Waiting? && q.owner in s.scanner.resolved)
  }

  function Step(q: Query, s: State, e: Event): State {
    match e
    case Discovered(d) => s.(scanner := Discover(s.scanner, d))
    case Registered(key, w) => if w.owner == q.owner then s else s.(scanner := Register(s.scanner, key, w))
    case Finished(key) => s.(scanner := Finish(s.scanner, key, false))
    case Forgotten(address) => s.(scanner := s.scanner.(devices := Without(s.scanner.devices, address)))
    case Cancelled =>
      s.(search := s.search.(cancelled := true), scanner := Finish(s.scanner, KeyOf(q.id), false))
    case Elapsed(time) => s.(now := s.now + time)
    case Resumed => if MayResume(q, s) then Turn(q, s) else s
    case ScannerClosed => s.(scanner := CloseScanner(s.scanner))
  }

  function Run(q: Query, s: State, events: seq<Event>): State
    decreases events
  {
    if events == [] then s else Run(q, Step(q, s, events[0]), events[1..])
  }

  function Started(q: Query, scanner: Scanner, now: nat): State {
    State(scanner.(resolved := scanner.resolved - {q.owner}), Search(Starting, {}, [], false), now)
  }

  // ---- Storing ----

  lemma {:induction false} MatchingAre(devices: seq<Device>, id: Identifier, d: Device)
    ensures d in Matching(devices, id) <==> d in devices && Accepts(id, d)
  {
    if devices != [] {
      MatchingAre(devices[1..], id, d);
    }
  }

  /** The new calls are matches, at addresses that are not yet reported. */
  lemma {:induction false} FreshAreFresh(found: seq<Device>, reported: set<nat>)
    ensures forall d | d in Fresh(found, reported) :: d in found && d.address !in reported
    decreases found
  {
    if found != [] {
      FreshAreFresh(found[1..], if found[0].address in reported then reported else reported + {found[0].address});
    }
  }

  lemma {:induction false} FreshAreDistinct(found: seq<Device>, reported: set<nat>)
    ensures DistinctAddresses(Fresh(found, reported))
    decreases found
  {
    if found != [] {
      var reported' := if found[0].address in reported then reported else reported + {found[0].address};
      FreshAreDistinct(found[1..], reported');
      FreshAreFresh(found[1..], reported');
      assert forall d | d in Fresh(found[1..], reported') :: d.address !in reported';
    }
  }

  /** With those reported before, they are all the addresses of matches. */
  lemma {:induction false} FreshAreAll(found: seq<Device>, reported: set<nat>)
    ensures Addresses(Fresh(found, reported)) + reported == Addresses(found) + reported
    decreases found
  {
    if found != [] {
      var rest := found[1..];
      assert Addresses(found) == Addresses(rest) + {found[0].address};
      if found[0].address in reported {
        FreshAreAll(rest, reported);
      } else {
        var more := Fresh(rest, reported + {found[0].address});
        FreshAreAll(rest, reported + {found[0].address});
        assert Addresses([found[0]] + more) == Addresses(more) + {found[0].address};
      }
    }
  }

  ghost predicate DistinctAddresses(devices: seq<Device>) {
    forall i, j | 0 <= i < j < |devices| :: devices[i].address != devices[j].address
  }

  // ---- Once each, and matches only ----

  ghost predicate Faithful(q: Query, s: State) {
    && s.search.reported == Addresses(s.search.calls)
    && DistinctAddresses(s.search.calls)
    && forall d | d in s.search.calls :: Accepts(q.id, d)
  }

  lemma MatchingOnly(devices: seq<Device>, id: Identifier)
    ensures forall d | d in Matching(devices, id) :: d in devices && Accepts(id, d)
  {
    forall d | d in Matching(devices, id) ensures d in devices && Accepts(id, d) {
      MatchingAre(devices, id, d);
    }
  }

  lemma SweepIsFaithful(q: Query, s: State)
    requires Faithful(q, s)
    ensures
      var added := Fresh(Matching(s.scanner.devices, q.id), s.search.reported);
      DistinctAddresses(s.search.calls + added)
      && Addresses(s.search.calls + added) == s.search.reported + Addresses(Matching(s.scanner.devices, q.id))
      && forall d | d in added :: Accepts(q.id, d) && d in s.scanner.devices
  {
    var found := Matching(s.scanner.devices, q.id);
    var added := Fresh(found, s.search.reported);
    FreshAreFresh(found, s.search.reported);
    FreshAreDistinct(found, s.search.reported);
    FreshAreAll(found, s.search.reported);
    MatchingOnly(s.scanner.devices, q.id);
    assert Addresses(s.search.calls + added) == Addresses(s.search.calls) + Addresses(added);
    assert forall d | d in s.search.calls :: d.address in s.search.reported;
  }

  /** Each step keeps this, and tells the callback only of devices that are stored. */
  lemma StepIsFaithful(q: Query, s: State, e: Event)
    requires Faithful(q, s)
    ensures Faithful(q, Step(q, s, e))
    ensures s.search.calls <= Step(q, s, e).search.calls
    ensures forall d | d in Step(q, s, e).search.calls :: d in s.search.calls || d in s.scanner.devices
  {
    if e.Resumed? {
      SweepIsFaithful(q, s);
    }
  }

  /** In every run the callback is told of an address once at most, and of matches only. */
  lemma {:induction false} RunIsFaithful(q: Query, s: State, events: seq<Event>)
    requires Faithful(q, s)
    ensures Faithful(q, Run(q, s, events))
    decreases events
  {
    if events != [] {
      StepIsFaithful(q, s, events[0]);
      RunIsFaithful(q, Step(q, s, events[0]), events[1..]);
    }
  }

  // ---- Nothing left out ----

  ghost predicate AllReported(q: Query, s: State) {
    forall d | d in s.scanner.devices && Accepts(q.id, d) :: d.address in s.search.reported
  }

  /** A turn that is not cancelled reports every match, and ends the search exactly when the time is up. */
  lemma TurnReportsAll(q: Query, s: State)
    ensures !s.search.cancelled ==> AllReported(q, Turn(q, s))
    ensures Turn(q, s).search.phase == Exited(true) <==>
              !s.search.cancelled && q.endTime.Some? && q.endTime.value <= s.now
  {
    var found := Matching(s.scanner.devices, q.id);
    forall d | d in s.scanner.devices && Accepts(q.id, d) ensures d.address in Addresses(found) {
      MatchingAre(s.scanner.devices, q.id, d);
    }
  }

  /** When the search has timed out, it has reported every match that is stored. */
  lemma TimeoutReportsAll(q: Query, s: State, e: Event)
    requires !s.search.phase.Exited? && Step(q, s, e).search.phase == Exited(true)
    ensures AllReported(q, Step(q, s, e))
  {
    TurnReportsAll(q, s);
  }

  /** Nobody else waits on the scanner or closes it, and a device that is found again says what it said before. */
  predicate Quiet(q: Query, s: State, e: Event) {
    match e
    case Registered(_, _) => false
    case ScannerClosed => false
    case Discovered(d) => forall x | x in s.scanner.devices && x.address == d.address :: x == d
    case _ => true
  }

  /** While the search waits undisturbed, no match is kept back: each is reported, or the search is about to go on. */
  ghost predicate Attentive(q: Query, s: State) {
    && s.scanner.waiters.Keys <= {KeyOf(q.id)}
    && (forall key | key in s.scanner.waiters :: s.scanner.waiters[key] == Waiter(q.owner, false, false))
    && (s.search.phase.Waiting? ==>
          q.owner in s.scanner.resolved || (KeyOf(q.id) in s.scanner.waiters && AllReported(q, s)))
  }

  lemma {:induction false} StoredIff(devices: seq<Device>, d: Device)
    requires forall x | x in devices && x.address == d.address :: x == d
    ensures Stored(devices, d.address) <==> d in devices
  {
    if Stored(devices, d.address) {
      var i :| 0 <= i < |devices| && devices[i].address == d.address;
      assert devices[i] in devices;
    }
  }

  lemma DiscoveryIsNoticed(q: Query, s: State, d: Device)
    requires Attentive(q, s) && Quiet(q, s, Discovered(d)) && Effective(q.id).productId.None?
    ensures Attentive(q, Step(q, s, Discovered(d)))
  {
    var waiters := s.scanner.waiters;
    StoredIff(s.scanner.devices, d);
    var found := FindKey(waiters.Keys, d);
    if s.search.phase.Waiting? && q.owner !in s.scanner.resolved && Accepts(q.id, d) && d !in s.scanner.devices {
      SomeWaiterIsWoken(waiters.Keys, q.id, d);
      assert found.value == KeyOf(q.id);
    }
  }

  lemma {:induction false} WithoutIsLess(devices: seq<Device>, address: nat, d: Device)
    ensures d in Without(devices, address) ==> d in devices
  {
    if devices != [] {
      WithoutIsLess(devices[1..], address, d);
    }
  }

  lemma StepIsAttentive(q: Query, s: State, e: Event)
    requires Attentive(q, s) && Quiet(q, s, e) && Effective(q.id).productId.None?
    ensures Attentive(q, Step(q, s, e))
  {
    match e
    case Discovered(d) => DiscoveryIsNoticed(q, s, d);
    case Forgotten(address) =>
      forall d | d in Without(s.scanner.devices, address) ensures d in s.scanner.devices {
        WithoutIsLess(s.scanner.devices, address, d);
      }
    case Resumed => TurnReportsAll(q, s);
    case _ =>
  }

  ghost predicate QuietRun(q: Query, s: State, events: seq<Event>)
    decreases events
  {
    events == [] || (Quiet(q, s, events[0]) && QuietRun(q, Step(q, s, events[0]), events[1..]))
  }

  /** In every quiet run on a scanner that nobody else waits on, a search that sits waiting has reported every stored
      match. */
  lemma {:induction false} WaitingHasReportedAll(q: Query, s: State, events: seq<Event>)
    requires Attentive(q, s) && QuietRun(q, s, events) && Effective(q.id).productId.None?
    ensures Attentive(q, Run(q, s, events))
    ensures
      var t := Run(q, s, events);
      t.search.phase.Waiting? && q.owner !in t.scanner.resolved ==> AllReported(q, t)
    decreases events
  {
    if events != [] {
      StepIsAttentive(q, s, events[0]);
      WaitingHasReportedAll(q, Step(q, s, events[0]), events[1..]);
    }
  }

  // ---- Where it falls short ----

  /** Why devices must not change: a device that is stored already never wakes the search. So when it is found again,
      it is kept back exactly if it matches now and its address has not been reported. */
  lemma ChangedDeviceIsMissed(q: Query, s: State, d: Device)
    requires Attentive(q, s) && s.search.phase.Waiting? && q.owner !in s.scanner.resolved
    requires Stored(s.scanner.devices, d.address)
    ensures
      var t := Step(q, s, Discovered(d));
      t.search == s.search && q.owner !in t.scanner.resolved
      && (AllReported(q, t) <==> !Accepts(q.id, d) || d.address in s.search.reported)
  {
    var t := Step(q, s, Discovered(d));
    assert d in t.scanner.devices;
    assert forall x | x in t.scanner.devices :: x == d || x in s.scanner.devices;
  }

  /** The waiter is registered without a timeout, because the time that remains is computed into a variable of an
      inner scope: however much time passes, a waiting search goes on waiting. */
  lemma {:induction false} TimeAloneNeverEndsTheWait(q: Query, s: State, events: seq<Event>)
    requires s.search.phase.Waiting? && q.owner !in s.scanner.resolved
    requires forall e | e in events :: e.Elapsed? || e.Resumed?
    ensures Run(q, s, events).search == s.search
    decreases events
  {
    if events != [] {
      assert events[0] in events;
      TimeAloneNeverEndsTheWait(q, Step(q, s, events[0]), events[1..]);
    }
  }

  predicate Owns(s: State, owner: nat) {
    exists key | key in s.scanner.waiters :: s.scanner.waiters[key].owner == owner
  }

  /** A waiter that another search has replaced under the same key is never resolved, in any run: not even cancelling
      lets the first search go on. */
  lemma {:induction false} ReplacedWaiterIsLost(q: Query, s: State, events: seq<Event>)
    requires s.search.phase.Waiting? && q.owner !in s.scanner.resolved && !Owns(s, q.owner)
    ensures
      var t := Run(q, s, events);
      t.search.phase.Waiting? && t.search.calls == s.search.calls && q.owner !in t.scanner.resolved
    decreases events
  {
    if events != [] {
      LostStep(q, s, events[0]);
      ReplacedWaiterIsLost(q, Step(q, s, events[0]), events[1..]);
    }
  }

  lemma LostStep(q: Query, s: State, e: Event)
    requires s.search.phase.Waiting? && q.owner !in s.scanner.resolved && !Owns(s, q.owner)
    ensures
      var t := Step(q, s, e);
      t.search.phase.Waiting? && t.search.calls == s.search.calls
      && q.owner !in t.scanner.resolved && !Owns(t, q.owner)
  {
  }

  /** And so it is when a second search waits for the same query. */
  lemma SecondSearchTakesTheWaiter(q: Query, s: State, other: Waiter)
    requires s.search.phase.Waiting? && q.owner !in s.scanner.resolved && other.owner != q.owner
    requires forall key | key in s.scanner.waiters && s.scanner.waiters[key].owner == q.owner :: key == KeyOf(q.id)
    ensures !Owns(Step(q, s, Registered(KeyOf(q.id), other)), q.owner)
  {
  }

  /** Closing the scanner removes the waiter without resolving it: in no run does the search ever go on, whatever is
      discovered afterwards. */
  lemma ClosedScannerStrandsTheSearch(q: Query, s: State, events: seq<Event>)
    requires s.search.phase.Waiting? && q.owner !in s.scanner.resolved
    requires forall key | key in s.scanner.waiters && s.scanner.waiters[key].owner == q.owner :: !s.scanner.waiters[key].timed
    ensures
      var t := Run(q, Step(q, s, ScannerClosed), events);
      t.search.phase.Waiting? && t.search.calls == s.search.calls && q.owner !in t.scanner.resolved
  {
    var closed := Step(q, s, ScannerClosed);
    assert !Owns(closed, q.owner);
    ReplacedWaiterIsLost(q, closed, events);
  }

  /** The waiter of a discovery loop never has a timer, so this is so for every undisturbed search that waits. */
  lemma AttentiveSearchIsStranded(q: Query, s: State, d: Device)
    requires Attentive(q, s) && s.search.phase.Waiting? && q.owner !in s.scanner.resolved
    requires Accepts(q.id, d) && d.address !in s.search.reported
    ensures
      var t := Step(q, Step(q, s, ScannerClosed), Discovered(d));
      t.search.phase.Waiting? && q.owner !in t.scanner.resolved && !AllReported(q, t)
  {
    var t := Step(q, Step(q, s, ScannerClosed), Discovered(d));
    ClosedScannerStrandsTheSearch(q, s, [Discovered(d)]);
    assert [Discovered(d)][1..] == [] && Run(q, t, []) == t;
    assert d in t.scanner.devices;
  }
}
