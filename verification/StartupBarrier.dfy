/** The start-up barrier of deploy.py: one thread a server, each running its roles one after the other, with a
    shared queue whose length the waiting roles poll. */
module StartupBarrier {

  /** The roles of a server, in the order in which its thread runs them. */
  datatype Server = Server(level2: bool, root: bool, level1: bool)

  datatype Stage = AtLevel2 | AtRoot | AtLevel1 | Starting1 | Over

  /** A thread: where it is, what it has started and what it has posted. */
  datatype Thread = Thread(
    stage: Stage,
    posted2: bool,
    startedRoot: bool,
    started1: bool,
    posted1: bool)

  datatype State = State(threads: seq<Thread>, queue: seq<nat>)

  const Fresh := Thread(AtLevel2, false, false, false, false)

  function Initial(servers: seq<Server>): State {
    State(seq(|servers|, _ => Fresh), [])
  }

  // ---- Counting ----

  function Level2Count(servers: seq<Server>): nat {
    if servers == [] then 0
    else Level2Count(servers[..|servers| - 1]) + if servers[|servers| - 1].level2 then 1 else 0
  }

  function Level1Count(servers: seq<Server>): nat {
    if servers == [] then 0
    else Level1Count(servers[..|servers| - 1]) + if servers[|servers| - 1].level1 then 1 else 0
  }

  function Posts2(threads: seq<Thread>): nat {
    if threads == [] then 0
    else Posts2(threads[..|threads| - 1]) + if threads[|threads| - 1].posted2 then 1 else 0
  }

  function Posts1(threads: seq<Thread>): nat {
    if threads == [] then 0
    else Posts1(threads[..|threads| - 1]) + if threads[|threads| - 1].posted1 then 1 else 0
  }

  // ---- Steps ----

  /** Whether thread `i` can do anything but poll again. A level-1 broker waits for as many posts as there are
      level-2 nodes, the root for as many as there are nodes of both levels. */
  predicate Enabled(servers: seq<Server>, s: State, i: nat)
    requires |s.threads| == |servers|
  {
    i < |servers| &&
    match s.threads[i].stage
    case AtLevel2 => true
    case AtRoot => servers[i].root ==> |s.queue| >= Level2Count(servers) + Level1Count(servers)
    case AtLevel1 => servers[i].level1 ==> |s.queue| >= Level2Count(servers)
    case Starting1 => true
    case Over => false
  }

  /** One step of thread `i`. A failing command makes the role return without posting; the thread goes on to its
      next role. */
  function Move(servers: seq<Server>, s: State, i: nat, fails: bool): State
    requires |s.threads| == |servers| && Enabled(servers, s, i)
  {
    var t, server := s.threads[i], servers[i];
    match t.stage
    case AtLevel2 =>
      if server.level2 && !fails
      then State(s.threads[i := t.(stage := AtRoot, posted2 := true)], s.queue + [i])
      else s.(threads := s.threads[i := t.(stage := AtRoot)])
    case AtRoot =>
      s.(threads := s.threads[i := t.(stage := AtLevel1, startedRoot := server.root)])
    case AtLevel1 =>
      if server.level1
      then s.(threads := s.threads[i := t.(stage := Starting1, started1 := true)])
      else s.(threads := s.threads[i := t.(stage := Over)])
    case _ =>
      if fails then s.(threads := s.threads[i := t.(stage := Over)])
      else State(s.threads[i := t.(stage := Over, posted1 := true)], s.queue + [i])
  }

  /** An exception ends the whole thread. */
  function Die(s: State, i: nat): State
    requires i < |s.threads|
  {
    s.(threads := s.threads[i := s.threads[i].(stage := Over)])
  }

  datatype Event = Go(i: nat) | Fail(i: nat) | Raise(i: nat)

  function Step(servers: seq<Server>, s: State, e: Event): State
    requires |s.threads| == |servers|
    ensures |Step(servers, s, e).threads| == |servers|
  {
    if e.Raise? then (if e.i < |servers| then Die(s, e.i) else s)
    else if Enabled(servers, s, e.i) then Move(servers, s, e.i, e.Fail?)
    else s
  }

  function Run(servers: seq<Server>, s: State, events: seq<Event>): (t: State)
    requires |s.threads| == |servers|
    ensures |t.threads| == |servers|
    decreases events
  {
    if events == [] then s else Run(servers, Step(servers, s, events[0]), events[1..])
  }

  // ---- Invariant ----

  predicate Consistent(server: Server, t: Thread) {
    && (t.posted2 ==> server.level2 && t.stage != AtLevel2)
    && (t.started1 ==> server.level1)
    && (t.startedRoot ==> server.root)
    && (t.stage == Starting1 ==> t.started1 && !t.posted1)
    && (t.posted1 ==> t.started1 && t.stage == Over)
  }

  predicate AllPosted2(servers: seq<Server>, threads: seq<Thread>)
    requires |threads| == |servers|
  {
    forall i | 0 <= i < |servers| && servers[i].level2 :: threads[i].posted2
  }

  predicate AllPosted1(servers: seq<Server>, threads: seq<Thread>)
    requires |threads| == |servers|
  {
    forall i | 0 <= i < |servers| && servers[i].level1 :: threads[i].posted1
  }

  predicate AnyStarted1(threads: seq<Thread>) {
    exists i | 0 <= i < |threads| :: threads[i].started1
  }

  predicate AnyStartedRoot(threads: seq<Thread>) {
    exists i | 0 <= i < |threads| :: threads[i].startedRoot
  }

  predicate AllConsistent(servers: seq<Server>, threads: seq<Thread>)
    requires |threads| == |servers|
  {
    forall i | 0 <= i < |servers| :: Consistent(servers[i], threads[i])
  }

  predicate Inv(servers: seq<Server>, s: State) {
    && |s.threads| == |servers|
    && AllConsistent(servers, s.threads)
    && |s.queue| == Posts2(s.threads) + Posts1(s.threads)
    && (AnyStarted1(s.threads) ==> AllPosted2(servers, s.threads))
    && (AnyStartedRoot(s.threads) ==> AllPosted2(servers, s.threads) && AllPosted1(servers, s.threads))
  }

  lemma {:induction false} PostsUpdate(threads: seq<Thread>, i: nat, t: Thread)
    requires i < |threads|
    ensures Posts2(threads[i := t]) - Posts2(threads) == (if t.posted2 then 1 else 0) - (if threads[i].posted2 then 1 else 0)
    ensures Posts1(threads[i := t]) - Posts1(threads) == (if t.posted1 then 1 else 0) - (if threads[i].posted1 then 1 else 0)
  {
    var init, updated := threads[..|threads| - 1], threads[i := t];
    if i < |init| {
      PostsUpdate(init, i, t);
      assert updated[..|updated| - 1] == init[i := t];
    } else {
      assert updated[..|updated| - 1] == init;
    }
  }

  /** There are never more posts than nodes, and as many only when every node has posted. */
  lemma {:induction false} PostsBound(servers: seq<Server>, threads: seq<Thread>)
    requires |threads| == |servers| && AllConsistent(servers, threads)
    ensures Posts2(threads) <= Level2Count(servers) && Posts1(threads) <= Level1Count(servers)
    ensures Posts2(threads) == Level2Count(servers) <==> AllPosted2(servers, threads)
    ensures Posts1(threads) == Level1Count(servers) <==> AllPosted1(servers, threads)
  {
    if servers != [] {
      var last := |servers| - 1;
      PostsBound(servers[..last], threads[..last]);
      assert Consistent(servers[last], threads[last]);
      AllPostedSplit(servers, threads);
    }
  }

  lemma AllPostedSplit(servers: seq<Server>, threads: seq<Thread>)
    requires |threads| == |servers| > 0
    ensures
      var last := |servers| - 1;
      && (AllPosted2(servers, threads) <==>
            AllPosted2(servers[..last], threads[..last]) && (servers[last].level2 ==> threads[last].posted2))
      && (AllPosted1(servers, threads) <==>
            AllPosted1(servers[..last], threads[..last]) && (servers[last].level1 ==> threads[last].posted1))
  {
    var last := |servers| - 1;
    assert forall i | 0 <= i < last :: servers[..last][i] == servers[i] && threads[..last][i] == threads[i];
  }

  lemma {:induction false} NoPosts1(threads: seq<Thread>)
    requires forall i | 0 <= i < |threads| :: !threads[i].posted1
    ensures Posts1(threads) == 0
  {
    if threads != [] {
      NoPosts1(threads[..|threads| - 1]);
    }
  }

  lemma {:induction false} NoPosts2(threads: seq<Thread>)
    requires forall i | 0 <= i < |threads| :: !threads[i].posted2
    ensures Posts2(threads) == 0
  {
    if threads != [] {
      NoPosts2(threads[..|threads| - 1]);
    }
  }

  /** A queue long enough to let a level-1 broker start holds the posts of all level-2 nodes: none of its posts
      can be from a level-1 broker before one has started. */
  lemma Level1Barrier(servers: seq<Server>, s: State)
    requires Inv(servers, s) && |s.queue| >= Level2Count(servers)
    ensures AllPosted2(servers, s.threads)
  {
    PostsBound(servers, s.threads);
    if !AnyStarted1(s.threads) {
      forall i | 0 <= i < |s.threads| ensures !s.threads[i].posted1 {
        assert Consistent(servers[i], s.threads[i]);
      }
      NoPosts1(s.threads);
    }
  }

  lemma RootBarrier(servers: seq<Server>, s: State)
    requires Inv(servers, s) && |s.queue| >= Level2Count(servers) + Level1Count(servers)
    ensures AllPosted2(servers, s.threads) && AllPosted1(servers, s.threads)
  {
    PostsBound(servers, s.threads);
  }

  lemma UpdateKeepsInv(servers: seq<Server>, s: State, i: nat, t: Thread, queue: seq<nat>)
    requires Inv(servers, s) && i < |servers| && Consistent(servers[i], t)
    requires (s.threads[i].posted2 ==> t.posted2) && (s.threads[i].posted1 ==> t.posted1)
    requires |queue| == |s.queue| + (if t.posted2 && !s.threads[i].posted2 then 1 else 0)
                                  + (if t.posted1 && !s.threads[i].posted1 then 1 else 0)
    requires t.started1 ==> s.threads[i].started1 || AllPosted2(servers, s.threads)
    requires t.startedRoot ==>
               s.threads[i].startedRoot || (AllPosted2(servers, s.threads) && AllPosted1(servers, s.threads))
    ensures Inv(servers, State(s.threads[i := t], queue))
  {
    PostsUpdate(s.threads, i, t);
    var threads := s.threads[i := t];
    if AnyStarted1(threads) {
      assert AnyStarted1(s.threads) || AllPosted2(servers, s.threads);
    }
    if AnyStartedRoot(threads) {
      assert AnyStartedRoot(s.threads) || (AllPosted2(servers, s.threads) && AllPosted1(servers, s.threads));
    }
  }

  lemma StepKeepsInv(servers: seq<Server>, s: State, e: Event)
    requires Inv(servers, s)
    ensures Inv(servers, Step(servers, s, e))
  {
    var next := Step(servers, s, e);
    var i := e.i;
    if i < |servers| {
      assert Consistent(servers[i], s.threads[i]);
      if e.Raise? {
        UpdateKeepsInv(servers, s, i, s.threads[i].(stage := Over), s.queue);
      } else if Enabled(servers, s, i) {
        if s.threads[i].stage == AtRoot && servers[i].root {
          RootBarrier(servers, s);
        }
        if s.threads[i].stage == AtLevel1 && servers[i].level1 {
          Level1Barrier(servers, s);
        }
        UpdateKeepsInv(servers, s, i, next.threads[i], next.queue);
      }
    }
  }

  lemma {:induction false} RunKeepsInv(servers: seq<Server>, s: State, events: seq<Event>)
    requires Inv(servers, s)
    ensures Inv(servers, Run(servers, s, events))
    decreases events
  {
    if events != [] {
      StepKeepsInv(servers, s, events[0]);
      RunKeepsInv(servers, Step(servers, s, events[0]), events[1..]);
    }
  }

  lemma InitialInv(servers: seq<Server>)
    ensures Inv(servers, Initial(servers))
  {
    NoPosts1(Initial(servers).threads);
    NoPosts2(Initial(servers).threads);
  }

  /** In every interleaving, failures included, a level-1 broker starts only when all level-2 nodes have posted. */
  lemma Level1StartsAfterAllLevel2(servers: seq<Server>, events: seq<Event>, i: nat, j: nat)
    requires i < |servers| && j < |servers| && servers[j].level2
    requires Run(servers, Initial(servers), events).threads[i].started1
    ensures Run(servers, Initial(servers), events).threads[j].posted2
  {
    InitialInv(servers);
    RunKeepsInv(servers, Initial(servers), events);
  }

  /** And the root only when the nodes of both levels have posted. */
  lemma RootStartsAfterAll(servers: seq<Server>, events: seq<Event>, i: nat, j: nat)
    requires i < |servers| && j < |servers|
    requires Run(servers, Initial(servers), events).threads[i].startedRoot
    ensures servers[j].level2 ==> Run(servers, Initial(servers), events).threads[j].posted2
    ensures servers[j].level1 ==> Run(servers, Initial(servers), events).threads[j].posted1
  {
    InitialInv(servers);
    RunKeepsInv(servers, Initial(servers), events);
  }

  // ---- Progress without failures ----

  /** Without failures a thread that has left a role has started it, and posted for it. */
  predicate Faithful(server: Server, t: Thread) {
    && (server.level2 && t.stage != AtLevel2 ==> t.posted2)
    && (server.root && t.stage in {AtLevel1, Starting1, Over} ==> t.startedRoot)
    && (server.level1 && t.stage == Over ==> t.posted1)
  }

  predicate AllFaithful(servers: seq<Server>, s: State) {
    |s.threads| == |servers| && forall i | 0 <= i < |servers| :: Faithful(servers[i], s.threads[i])
  }

  predicate NoFailures(events: seq<Event>) {
    forall i | 0 <= i < |events| :: events[i].Go?
  }

  predicate AllOver(s: State) {
    forall i | 0 <= i < |s.threads| :: s.threads[i].stage == Over
  }

  /** The root runs on a server of its own: in one thread a level-1 role would come after the root's wait for it. */
  predicate RootIsNotLevel1(servers: seq<Server>) {
    forall i | 0 <= i < |servers| :: !(servers[i].root && servers[i].level1)
  }

  lemma {:induction false} RunIsFaithful(servers: seq<Server>, s: State, events: seq<Event>)
    requires Inv(servers, s) && AllFaithful(servers, s) && NoFailures(events)
    ensures AllFaithful(servers, Run(servers, s, events))
    decreases events
  {
    if events != [] {
      assert events[0].Go?;
      var next := Step(servers, s, events[0]);
      StepKeepsInv(servers, s, events[0]);
      assert AllFaithful(servers, next) by {
        forall i | 0 <= i < |servers| ensures Faithful(servers[i], next.threads[i]) {
          assert Faithful(servers[i], s.threads[i]) && Consistent(servers[i], s.threads[i]);
        }
      }
      RunIsFaithful(servers, next, events[1..]);
    }
  }

  /** A state in which some thread is not over has a thread that can move. */
  lemma SomeThreadCanMove(servers: seq<Server>, s: State) returns (i: nat)
    requires Inv(servers, s) && AllFaithful(servers, s) && RootIsNotLevel1(servers) && !AllOver(s)
    ensures Enabled(servers, s, i)
  {
    i :| 0 <= i < |s.threads| && s.threads[i].stage != Over;
    if !Enabled(servers, s, i) {
      if j: nat :| j < |servers| && s.threads[j].stage != Over && s.threads[j].stage != AtRoot {
        i := j;
        if !Enabled(servers, s, i) {
          i := Level2Laggard(servers, s);
        }
      } else {
        i := RootIsNotBlocked(servers, s, i);
      }
    }
  }

  /** A level-1 role that has to wait waits for a level-2 node that has not run. */
  lemma Level2Laggard(servers: seq<Server>, s: State) returns (i: nat)
    requires Inv(servers, s) && AllFaithful(servers, s) && |s.queue| < Level2Count(servers)
    ensures Enabled(servers, s, i)
  {
    PostsBound(servers, s.threads);
    i :| 0 <= i < |servers| && servers[i].level2 && !s.threads[i].posted2;
    assert Faithful(servers[i], s.threads[i]);
  }

  /** When only root roles are left, all the posts they wait for are there. */
  lemma RootIsNotBlocked(servers: seq<Server>, s: State, i: nat) returns (j: nat)
    requires Inv(servers, s) && AllFaithful(servers, s) && RootIsNotLevel1(servers)
    requires i < |servers| && s.threads[i].stage == AtRoot && servers[i].root
    requires forall k | 0 <= k < |servers| :: s.threads[k].stage == Over || s.threads[k].stage == AtRoot
    ensures Enabled(servers, s, j)
  {
    j := i;
    PostsBound(servers, s.threads);
    if k: nat :| k < |servers| && s.threads[k].stage == AtRoot && !servers[k].root {
      j := k;
    } else {
      forall k | 0 <= k < |servers|
        ensures servers[k].level2 ==> s.threads[k].posted2
        ensures servers[k].level1 ==> s.threads[k].posted1
      {
        assert Faithful(servers[k], s.threads[k]);
      }
    }
  }

  function Remaining(stage: Stage): nat {
    match stage
    case AtLevel2 => 4
    case AtRoot => 3
    case AtLevel1 => 2
    case Starting1 => 1
    case Over => 0
  }

  function Work(threads: seq<Thread>): nat {
    if threads == [] then 0 else Work(threads[..|threads| - 1]) + Remaining(threads[|threads| - 1].stage)
  }

  lemma {:induction false} WorkUpdate(threads: seq<Thread>, i: nat, t: Thread)
    requires i < |threads|
    ensures Work(threads[i := t]) - Work(threads) == Remaining(t.stage) - Remaining(threads[i].stage)
  {
    var init, updated := threads[..|threads| - 1], threads[i := t];
    if i < |init| {
      WorkUpdate(init, i, t);
      assert updated[..|updated| - 1] == init[i := t];
    } else {
      assert updated[..|updated| - 1] == init;
    }
  }

  /** Every step that is not a poll lessens the work left, whether it fails or not. */
  lemma StepsDecreaseWork(servers: seq<Server>, s: State, i: nat, fails: bool)
    requires |s.threads| == |servers| && Enabled(servers, s, i)
    ensures Work(Move(servers, s, i, fails).threads) < Work(s.threads)
  {
    WorkUpdate(s.threads, i, Move(servers, s, i, fails).threads[i]);
  }

  /** Without failures no reachable state is a deadlock: some thread can move until all are over. */
  lemma NoDeadlock(servers: seq<Server>, events: seq<Event>)
    requires RootIsNotLevel1(servers) && NoFailures(events)
    requires !AllOver(Run(servers, Initial(servers), events))
    ensures exists i: nat :: Enabled(servers, Run(servers, Initial(servers), events), i)
  {
    InitialInv(servers);
    RunKeepsInv(servers, Initial(servers), events);
    RunIsFaithful(servers, Initial(servers), events);
    var i := SomeThreadCanMove(servers, Run(servers, Initial(servers), events));
  }

  /** So from any reachable state some schedule without failures ends every thread. */
  lemma {:induction false} CanFinish(servers: seq<Server>, s: State) returns (events: seq<Event>)
    requires Inv(servers, s) && AllFaithful(servers, s) && RootIsNotLevel1(servers)
    ensures NoFailures(events) && AllOver(Run(servers, s, events))
    decreases Work(s.threads)
  {
    if AllOver(s) {
      events := [];
    } else {
      var i := SomeThreadCanMove(servers, s);
      StepsDecreaseWork(servers, s, i, false);
      StepKeepsInv(servers, s, Go(i));
      RunIsFaithful(servers, s, [Go(i)]);
      var next := Step(servers, s, Go(i));
      assert [Go(i)][1..] == [] && Run(servers, s, [Go(i)]) == next;
      var rest := CanFinish(servers, next);
      events := [Go(i)] + rest;
      assert events[1..] == rest;
    }
  }

  lemma {:induction false} RootStaysBlocked(servers: seq<Server>, s: State, events: seq<Event>, i: nat)
    requires Inv(servers, s) && NoFailures(events)
    requires i < |servers| && servers[i].root && servers[i].level1 && s.threads[i].stage in {AtLevel2, AtRoot}
    ensures Run(servers, s, events).threads[i].stage in {AtLevel2, AtRoot}
    decreases events
  {
    if events != [] {
      var e := events[0];
      assert e.Go?;
      if e.i == i && s.threads[i].stage == AtRoot && Enabled(servers, s, i) {
        RootBarrier(servers, s);
        assert false;
      }
      StepKeepsInv(servers, s, e);
      RootStaysBlocked(servers, Step(servers, s, e), events[1..], i);
    }
  }

  /** Every server has started just its roles, and the nodes of both levels have posted. */
  predicate AllStarted(servers: seq<Server>, s: State) {
    |s.threads| == |servers| &&
    forall i | 0 <= i < |servers| ::
      && (servers[i].root <==> s.threads[i].startedRoot)
      && (servers[i].level1 <==> s.threads[i].started1) && (servers[i].level1 <==> s.threads[i].posted1)
      && (servers[i].level2 <==> s.threads[i].posted2)
  }

  /** Whenever a run without failures is over, everything has been started. */
  lemma OverMeansStarted(servers: seq<Server>, events: seq<Event>)
    requires NoFailures(events) && AllOver(Run(servers, Initial(servers), events))
    ensures AllStarted(servers, Run(servers, Initial(servers), events))
  {
    InitialInv(servers);
    RunKeepsInv(servers, Initial(servers), events);
    RunIsFaithful(servers, Initial(servers), events);
    var s := Run(servers, Initial(servers), events);
    forall i | 0 <= i < |servers|
      ensures servers[i].root <==> s.threads[i].startedRoot
      ensures (servers[i].level1 <==> s.threads[i].started1) && (servers[i].level1 <==> s.threads[i].posted1)
      ensures servers[i].level2 <==> s.threads[i].posted2
    {
      assert Faithful(servers[i], s.threads[i]) && Consistent(servers[i], s.threads[i]);
    }
  }

  /** Exactly the deployments whose root has no level-1 role can start up completely, which starts everything: a root
      that is also a level-1 broker waits for its own later post. */
  lemma StartupCompletes(servers: seq<Server>)
    ensures RootIsNotLevel1(servers) <==>
              exists events ::
                && NoFailures(events)
                && AllOver(Run(servers, Initial(servers), events))
                && AllStarted(servers, Run(servers, Initial(servers), events))
  {
    InitialInv(servers);
    if RootIsNotLevel1(servers) {
      var events := CanFinish(servers, Initial(servers));
      OverMeansStarted(servers, events);
    } else {
      var i :| 0 <= i < |servers| && servers[i].root && servers[i].level1;
      forall events | NoFailures(events) ensures !AllOver(Run(servers, Initial(servers), events)) {
        RootStaysBlocked(servers, Initial(servers), events, i);
      }
    }
  }

  // ---- Failures ----

  /** A level-2 node that will never post. */
  predicate Lost2(servers: seq<Server>, s: State, i: nat) {
    |s.threads| == |servers| && i < |servers| && servers[i].level2
    && !s.threads[i].posted2 && s.threads[i].stage != AtLevel2
  }

  /** A level-1 broker that will never post. */
  predicate Lost1(servers: seq<Server>, s: State, i: nat) {
    |s.threads| == |servers| && i < |servers| && servers[i].level1
    && !s.threads[i].posted1 && s.threads[i].stage == Over
  }

  lemma LostStays(servers: seq<Server>, s: State, e: Event, i: nat)
    requires |s.threads| == |servers|
    ensures Lost2(servers, s, i) ==> Lost2(servers, Step(servers, s, e), i)
    ensures Lost1(servers, s, i) ==> Lost1(servers, Step(servers, s, e), i)
  {
  }

  lemma {:induction false} LostForEver(servers: seq<Server>, s: State, events: seq<Event>, i: nat)
    requires |s.threads| == |servers|
    ensures Lost2(servers, s, i) ==> Lost2(servers, Run(servers, s, events), i)
    ensures Lost1(servers, s, i) ==> Lost1(servers, Run(servers, s, events), i)
    decreases events
  {
    if events != [] {
      LostStays(servers, s, events[0], i);
      LostForEver(servers, Step(servers, s, events[0]), events[1..], i);
    }
  }

  /** A role that fails, or a thread that dies, before its post is lost. */
  lemma FailureLoses(servers: seq<Server>, s: State, i: nat)
    requires Inv(servers, s) && i < |servers|
    ensures servers[i].level2 && s.threads[i].stage == AtLevel2 ==>
              Lost2(servers, Step(servers, s, Fail(i)), i) && Lost2(servers, Step(servers, s, Raise(i)), i)
    ensures servers[i].level1 && s.threads[i].stage == Starting1 ==>
              Lost1(servers, Step(servers, s, Fail(i)), i) && Lost1(servers, Step(servers, s, Raise(i)), i)
  {
    assert Consistent(servers[i], s.threads[i]);
  }

  /** After that nothing that waits for it is ever started: no level-1 broker and no root for a level-2 node, and no root
      for a level-1 broker. */
  lemma FailureBlocksTheRest(servers: seq<Server>, s: State, events: seq<Event>, i: nat, j: nat)
    requires Inv(servers, s) && i < |servers| && j < |servers|
    ensures Lost2(servers, s, i) ==> !Run(servers, s, events).threads[j].started1
    ensures Lost2(servers, s, i) || Lost1(servers, s, i) ==> !Run(servers, s, events).threads[j].startedRoot
  {
    RunKeepsInv(servers, s, events);
    LostForEver(servers, s, events, i);
  }

  // ---- The thresholds of the script ----

  function Copies(n: nat, server: Server): seq<Server> {
    if n == 0 then [] else Copies(n - 1, server) + [server]
  }

  /** The twenty machines of the script: the root, three level-1 brokers, one with both levels, fifteen of level 2. */
  function Machines(): seq<Server> {
    Copies(1, Server(false, true, false)) + Copies(3, Server(false, false, true))
    + Copies(1, Server(true, false, true)) + Copies(15, Server(true, false, false))
  }

  lemma {:induction false} CountsOfCopies(servers: seq<Server>, n: nat, server: Server)
    ensures Level2Count(servers + Copies(n, server)) == Level2Count(servers) + if server.level2 then n else 0
    ensures Level1Count(servers + Copies(n, server)) == Level1Count(servers) + if server.level1 then n else 0
  {
    if n == 0 {
      assert servers + [] == servers;
    } else {
      CountsOfCopies(servers, n - 1, server);
      var all := servers + Copies(n, server);
      assert all[..|all| - 1] == servers + Copies(n - 1, server);
    }
  }

  /** The lengths the script polls for, 16 and 16 + 4, are the numbers of nodes it starts. */
  lemma ThresholdsMatchTheMachines()
    ensures Level2Count(Machines()) == 16 && Level2Count(Machines()) + Level1Count(Machines()) == 16 + 4
  {
    var a := Copies(1, Server(false, true, false));
    var b := a + Copies(3, Server(false, false, true));
    CountsOfCopies([], 1, Server(false, true, false));
    assert [] + a == a;
    CountsOfCopies(a, 3, Server(false, false, true));
    CountsOfCopies(b, 1, Server(true, false, true));
    CountsOfCopies(b + Copies(1, Server(true, false, true)), 15, Server(true, false, false));
  }
}
