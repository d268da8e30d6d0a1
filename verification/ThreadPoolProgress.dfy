/** The thread pool never deadlocks and always finishes: some real step is
    possible until everything is done, and every such step uses up a measure. */
module ThreadPoolProgress {
  import opened Maybe
  import opened ThreadPool
  import opened ThreadPoolInv
  import opened ThreadPoolSteps
  import opened ThreadPoolResults

  // ---------- no deadlock ----------

  predicate AllDone(s: State) {
    s.pool.boss == Destroyed && forall c :: 0 <= c < |s.clients| ==> s.clients[c].d == Ended
  }

  predicate CanStep(s: State, l: Label) { Enabled(s, l) && !Spurious(l) }

  lemma {:induction false} SomeWake(s: State, t: nat) returns (w: Option<nat>)
    requires t < |s.threads|
    ensures CanWake(s, t, w)
  {
    if c :| 0 <= c < |s.clients| && s.clients[c].h == AwaitAsleep(t) { w := Some(c); } else { w := None; }
  }

  lemma {:induction false} SomePoolWake(s: State) returns (w: Waiter)
    ensures CanWakePool(s, w)
  {
    if c :| 0 <= c < |s.clients| && s.clients[c].d == Sleeping { w := OfClient(c); }
    else if s.pool.boss == BossAsleep { w := OfBoss; }
    else { w := Nobody; }
  }

  lemma {:induction false} RunningSteps(s: State, t: nat) returns (l: Label)
    requires Inv(s) && t < |s.threads| && (s.threads[t].place.Out? || s.threads[t].place.Held?)
    requires s.threads[t].pc != Asleep
    ensures CanStep(s, l)
  {
    hide ClientOk, PoolOk, Inv, ThreadOk, CanWake;
    InvParts(s, |s.clients|, t);
    JobPcs(s.threads[t]);
    match s.threads[t].pc {
      case Top => l := CheckRunning(t);
      case Work => l := RunJob(t);
      case Done(_) => var w := SomeWake(s, t); l := StopRunning(t, w);
      case Enqueue(_) => l := JoinQueue(t);
    }
  }

  lemma JobPcs(th: Thread)
    requires ThreadOk(th) && (th.place.Out? || th.place.Held?)
    ensures th.pc != Exited && (th.pc.Enqueue? ==> Owner(th.place) == Some(th.pc.c))
    ensures th.pc == Asleep ==> !th.running && Waiting(th)
  {
  }

  lemma {:induction false} ReturnSteps(s: State, c: nat) returns (l: Label)
    requires PoolFree(s) && c < |s.clients| && s.clients[c].h.Return? && s.clients[c].h.t < |s.threads|
    ensures CanStep(s, l)
  {
    var w := SomePoolWake(s);
    l := ReturnThread(c, w);
  }

  lemma {:induction false} AssignSteps(s: State, c: nat) returns (l: Label)
    requires c < |s.clients| && s.clients[c].d.Assign? && s.clients[c].d.t < |s.threads|
    ensures CanStep(s, l)
  {
    var w := SomeWake(s, s.clients[c].d.t);
    l := AssignJob(c, w);
  }

  /** A handler with something to do can do it, or the thread it waits for can. */
  lemma {:induction false} HandlerSteps(s: State, c: nat) returns (l: Label)
    requires Inv(s) && PoolFree(s) && c < |s.clients| && s.clients[c].h != Quit && s.clients[c].h != Idle
    ensures CanStep(s, l)
  {
    hide ClientOk, PoolOk, Inv, ThreadOk;
    InvParts(s, c, |s.threads|);
    var cl := s.clients[c];
    match cl.h {
      case Look =>
        if |cl.queue| > 0 { QueueHead(cl, c, s.threads); }
        l := LookInQueue(c);
      case Await(t) => Awaited(cl, c, s.threads); l := AwaitResult(c);
      case AwaitAsleep(t) =>
        AsleepRuns(cl, c, s.threads);
        InvParts(s, c, t);
        RunningAwake(s.threads[t]);
        l := RunningSteps(s, t);
      case Return(_, _) => BackFacts(cl, c, s.threads); l := ReturnSteps(s, c);
      case Call(_) => l := Callback(c);
    }
  }

  lemma {:induction false} QueuedSteps(s: State, c: nat) returns (l: Label)
    requires Inv(s) && PoolFree(s) && c < |s.clients| && s.clients[c].queue != []
    ensures CanStep(s, l)
  {
    hide ClientOk, PoolOk, Inv, ThreadOk;
    InvParts(s, c, |s.threads|);
    NotIdle(s.clients[c], c, s.threads);
    l := HandlerSteps(s, c);
  }

  lemma NotIdle(cl: Client, c: nat, ts: seq<Thread>)
    requires ClientOk(cl, c, ts) && cl.queue != []
    ensures cl.h != Idle && cl.h != Quit
  {
    hide OutOk, QueueOk, StatusOk, DispatcherOk, CountOk, OrderOk;
  }

  /** A thread that is neither in the pool nor gone leads to a possible step. */
  lemma {:induction false} ThreadSteps(s: State, t: nat) returns (l: Label)
    requires Inv(s) && PoolFree(s) && t < |s.threads| && s.threads[t].place != InPool && s.threads[t].place != Gone
    ensures CanStep(s, l)
  {
    hide ClientOk, PoolOk, Inv, ThreadOk;
    var th := s.threads[t];
    InvParts(s, |s.clients|, t);
    NotRetiring(s.pool, s.threads, s.clients, t);
    var c := Owner(th.place).value;
    InvParts(s, c, t);
    var cl := s.clients[c];
    match th.place {
      case Taken(_) => TakenBy(cl, c, s.threads, t); l := AssignSteps(s, c);
      case Back(_) => BackBy(cl, c, s.threads, t); l := ReturnSteps(s, c);
      case Held(_, _, _) => HeldBy(cl, c, s.threads, t); l := HandlerSteps(s, c);
      case Out(_, _, _) =>
        if th.pc != Asleep {
          l := RunningSteps(s, t);
        } else {
          JobPcs(th);
          OutQueued(cl, c, s.threads, t);
          if cl.d.Announce? && cl.d.id < |cl.prog| && t !in cl.queue { l := AnnounceJob(c); } else { l := QueuedSteps(s, c); }
        }
    }
  }

  lemma NotRetiring(p: Pool, ts: seq<Thread>, cs: seq<Client>, t: nat)
    requires PoolOk(p, ts, cs) && !p.boss.Joining? && t < |ts|
    ensures ts[t].place != Retiring
  {
  }

  lemma TakenBy(cl: Client, c: nat, ts: seq<Thread>, t: nat)
    requires ClientOk(cl, c, ts) && t < |ts| && ts[t].place == Taken(c)
    ensures cl.d == Assign(t)
  {
    hide OutOk, QueueOk, StatusOk, HandlerOk, CountOk, OrderOk;
  }

  lemma BackBy(cl: Client, c: nat, ts: seq<Thread>, t: nat)
    requires ClientOk(cl, c, ts) && t < |ts| && ts[t].place == Back(c)
    ensures cl.h.Return? && cl.h.t == t
  {
    hide OutOk, QueueOk, StatusOk, DispatcherOk, CountOk, OrderOk;
  }

  lemma HeldBy(cl: Client, c: nat, ts: seq<Thread>, t: nat)
    requires ClientOk(cl, c, ts) && t < |ts| && IsHeld(c, ts[t])
    ensures cl.h == Await(t) || cl.h == AwaitAsleep(t)
  {
    hide OutOk, QueueOk, StatusOk, DispatcherOk, CountOk, OrderOk;
  }

  lemma OutQueued(cl: Client, c: nat, ts: seq<Thread>, t: nat)
    requires ClientOk(cl, c, ts) && t < |ts| && IsOut(c, ts[t]) && Waiting(ts[t])
    ensures t in cl.queue || (cl.d.Announce? && cl.d.id < |cl.prog|)
  {
    hide OutOk, HandlerOk, CountOk, OrderOk;
  }

  /** If a dispatcher is not finished, something can move. */
  lemma {:induction false} DispatcherSteps(s: State, c: nat) returns (l: Label)
    requires Inv(s) && PoolFree(s) && c < |s.clients| && s.clients[c].d != Join && s.clients[c].d != Ended
    ensures CanStep(s, l)
  {
    hide ClientOk, PoolOk, Inv, ThreadOk;
    InvParts(s, c, |s.threads|);
    var cl := s.clients[c];
    DispatcherBounds(cl, c, s.threads);
    match cl.d {
      case Next => if cl.next < |cl.prog| { l := NextSteps(s, c); } else { l := Finish(c); }
      case Make => l := Create(c);
      case Assign(_) => l := AssignSteps(s, c);
      case Announce(_, _) => l := AnnounceJob(c);
      case Sleeping => l := SleepingSteps(s, c);
    }
  }

  lemma DispatcherBounds(cl: Client, c: nat, ts: seq<Thread>)
    requires ClientOk(cl, c, ts)
    ensures cl.next <= |cl.prog|
    ensures cl.d.Announce? ==> cl.d.id < |cl.prog|
    ensures cl.d.Assign? ==> cl.d.t < |ts|
  {
    hide OutOk, QueueOk, HandlerOk, CountOk, OrderOk;
  }

  lemma {:induction false} NextSteps(s: State, c: nat) returns (l: Label)
    requires Inv(s) && PoolFree(s) && Dispatching(s, c)
    ensures CanStep(s, l)
  {
    hide ClientOk, PoolOk, ThreadOk;
    if |s.pool.head| > 0 { HeadThread(s); l := TakeThread(c); }
    else if s.pool.count != s.pool.max { l := Grow(c); }
    else { l := WaitForThread(c); }
  }

  lemma {:induction false} SleepingSteps(s: State, c: nat) returns (l: Label)
    requires Inv(s) && PoolFree(s) && c < |s.clients| && s.clients[c].d == Sleeping
    ensures CanStep(s, l)
  {
    hide ClientOk, ThreadOk, HeadOk, AliveOk, Inv, Enabled;
    InvParts(s, c, |s.threads|);
    if d :| d in s.pool.ready {
      l := NextSteps(s, d);
    } else {
      assert |s.pool.ready| == 0;
      l := OutsideSteps(s);
    }
  }

  /** With no thread in the pool but some counted, one is being made or is out. */
  lemma {:induction false} OutsideSteps(s: State) returns (l: Label)
    requires Inv(s) && PoolFree(s) && s.pool.head == [] && s.pool.count > 0
    ensures CanStep(s, l)
  {
    hide ClientOk, ThreadOk, SleepersOk, Inv;
    InvParts(s, |s.clients|, |s.threads|);
    if d :| d in s.pool.making {
      l := Create(d);
    } else {
      assert |s.pool.making| == 0;
      var t :| t in s.pool.alive;
      l := ThreadSteps(s, t);
    }
  }

  /** A client whose dispatcher waits for the handler to exit. */
  lemma {:induction false} JoiningSteps(s: State, c: nat) returns (l: Label)
    requires Inv(s) && PoolFree(s) && c < |s.clients| && s.clients[c].d == Join
    ensures CanStep(s, l)
  {
    hide ClientOk, ThreadOk, PoolOk, Inv;
    InvParts(s, c, |s.threads|);
    var cl := s.clients[c];
    if cl.h == Quit {
      l := JoinHandler(c);
    } else if cl.h == Idle {
      var t := IdleMeansOut(cl, c, s.threads);
      l := ThreadSteps(s, t);
    } else {
      l := HandlerSteps(s, c);
    }
  }

  lemma IdleMeansOut(cl: Client, c: nat, ts: seq<Thread>) returns (t: nat)
    requires ClientOk(cl, c, ts) && cl.h == Idle && cl.d == Join
    ensures t < |ts| && IsOut(c, ts[t])
  {
    hide QueueOk, StatusOk, OrderOk;
    assert |cl.out| > 0;
    t :| t in cl.out;
  }

  /** Until everything is done some step other than a spurious wakeup is possible. */
  lemma {:induction false} NoDeadlock(s: State) returns (l: Label)
    requires Inv(s) && !AllDone(s)
    ensures CanStep(s, l)
  {
    hide ClientOk, PoolOk, Inv, ThreadOk, CanWake;
    InvParts(s, |s.clients|, |s.threads|);
    match s.pool.boss {
      case Joining(t) =>
        BossPlace(s.pool, s.threads, s.clients);
        InvParts(s, |s.clients|, t);
        RetiringPcs(s.threads[t]);
        l := if s.threads[t].pc == Top then CheckRunning(t) else JoinThread;
      case Collecting =>
        if s.pool.count > 0 && |s.pool.head| > 0 {
          HeadThread(s);
          var w := SomeWake(s, s.pool.head[0]);
          l := Collect(w);
        } else {
          l := Collect(None);
        }
      case BossAsleep => BossWaits(s.pool, s.threads, s.clients); l := OutsideSteps(s);
      case NotYet =>
        if c :| 0 <= c < |s.clients| && s.clients[c].d != Join && s.clients[c].d != Ended {
          l := DispatcherSteps(s, c);
        } else {
          l := StartDestroy;
        }
      case Destroyed =>
        BossFacts(s);
        var c :| 0 <= c < |s.clients| && s.clients[c].d != Ended;
        l := JoiningSteps(s, c);
    }
  }

  lemma RetiringPcs(th: Thread)
    requires ThreadOk(th) && th.place == Retiring
    ensures th.pc == Top || th.pc == Exited
  {
  }

  lemma BossWaits(p: Pool, ts: seq<Thread>, cs: seq<Client>)
    requires PoolOk(p, ts, cs) && p.boss == BossAsleep
    ensures p.head == [] && p.count > 0
  {
  }

  // ---------- the measure ----------

  function PcWeight(pc: WorkerPc): nat {
    match pc
    case Top => 1
    case Done(None) => 3
    case Done(Some(_)) => 5
    case Enqueue(_) => 4
    case _ => 0
  }

  function ThreadWeight(th: Thread): nat { PcWeight(th.pc) + if th.job.Some? then 6 else 0 }

  function DispatcherWeight(d: Dispatcher): nat {
    match d
    case Next => 5
    case Sleeping => 4
    case Make => 3
    case Assign(_) => 1
    case Announce(_, _) => 7
    case Join => 1
    case Ended => 0
  }

  function HandlerWeight(h: Handler): nat {
    match h
    case Look => 1
    case Idle => 0
    case Await(_) => 7
    case AwaitAsleep(_) => 6
    case Return(_, _) => 5
    case Call(_) => 3
    case Quit => 0
  }

  function ClientWeight(cl: Client): int {
    21 * (|cl.prog| - cl.next) + 7 * |cl.out| + DispatcherWeight(cl.d) + HandlerWeight(cl.h)
  }

  function PoolWeight(p: Pool): nat {
    match p.boss
    case NotYet => 3 * p.max + 3
    case Collecting => 3 * p.count + 2
    case BossAsleep => 3 * p.count + 1
    case Joining(_) => 3 * p.count
    case Destroyed => 0
  }

  function ThreadsWeight(ts: seq<Thread>): nat {
    if |ts| == 0 then 0 else ThreadsWeight(ts[..|ts| - 1]) + ThreadWeight(ts[|ts| - 1])
  }

  function ClientsWeight(cs: seq<Client>): int {
    if |cs| == 0 then 0 else ClientsWeight(cs[..|cs| - 1]) + ClientWeight(cs[|cs| - 1])
  }

  /** Bounds the number of steps still to come, spurious wakeups aside. */
  function Measure(s: State): int { ThreadsWeight(s.threads) + ClientsWeight(s.clients) + PoolWeight(s.pool) }

  lemma {:induction false} ThreadsUpdate(ts: seq<Thread>, t: nat, th: Thread)
    requires t < |ts|
    ensures ThreadsWeight(ts[t := th]) == ThreadsWeight(ts) - ThreadWeight(ts[t]) + ThreadWeight(th)
  {
    hide ThreadWeight;
    var n := |ts| - 1;
    if t < n {
      ThreadsUpdate(ts[..n], t, th);
      assert ts[t := th][..n] == ts[..n][t := th];
    } else {
      assert ts[t := th][..n] == ts[..n];
    }
  }

  lemma {:induction false} ClientsUpdate(cs: seq<Client>, c: nat, cl: Client)
    requires c < |cs|
    ensures ClientsWeight(cs[c := cl]) == ClientsWeight(cs) - ClientWeight(cs[c]) + ClientWeight(cl)
  {
    hide ClientWeight;
    var n := |cs| - 1;
    if c < n {
      ClientsUpdate(cs[..n], c, cl);
      assert cs[c := cl][..n] == cs[..n][c := cl];
    } else {
      assert cs[c := cl][..n] == cs[..n];
    }
  }

  lemma {:induction false} WeightNonNegative(s: State)
    requires Inv(s)
    ensures Measure(s) >= 0
  {
    hide ClientOk, PoolOk, Inv, ThreadOk;
    forall c: nat | c < |s.clients| ensures s.clients[c].next <= |s.clients[c].prog| {
      InvParts(s, c, |s.threads|);
      DispatcherBounds(s.clients[c], c, s.threads);
    }
    ClientsNonNegative(s.clients);
  }

  lemma {:induction false} ClientsNonNegative(cs: seq<Client>)
    requires forall c: nat :: c < |cs| ==> cs[c].next <= |cs[c].prog|
    ensures ClientsWeight(cs) >= 0
  {
    if |cs| > 0 { ClientsNonNegative(cs[..|cs| - 1]); }
  }

  /** Waking a dispatcher or a handler adds one. */
  lemma {:induction false} WakeClients(cs: seq<Client>, t: nat, w: Option<nat>)
    requires w.Some? ==> w.value < |cs| && cs[w.value].h == AwaitAsleep(t)
    ensures ClientsWeight(WokenClients(cs, t, w)) <= ClientsWeight(cs) + 1
  {
    if w.Some? { ClientsUpdate(cs, w.value, cs[w.value].(h := Await(t))); }
  }

  lemma {:induction false} WakeDispatchers(cs: seq<Client>, w: Waiter)
    requires w.OfClient? ==> w.c < |cs| && cs[w.c].d == Sleeping
    ensures ClientsWeight(WokenDispatcher(cs, w)) <= ClientsWeight(cs) + if w.OfClient? then 1 else 0
  {
    if w.OfClient? { ClientsUpdate(cs, w.c, cs[w.c].(d := Next)); }
  }

  // ---------- every real step lowers the measure ----------

  lemma {:induction false} DispatcherUses(s: State, l: Label, c: nat)
    requires Inv(s) && Enabled(s, l)
    requires l == TakeThread(c) || l == Grow(c) || l == WaitForThread(c)
    ensures Measure(After(s, l)) < Measure(s)
  {
    hide ClientOk, PoolOk, ThreadOk, ThreadsWeight, ClientsWeight, Inv;
    InvParts(s, c, |s.threads|);
    MakingIsEarly(s.pool, s.threads, s.clients, c);
    var s2 := After(s, l);
    ClientsUpdate(s.clients, c, s2.clients[c]);
    match l
    case TakeThread(_) => ThreadsUpdate(s.threads, s.pool.head[0], s2.threads[s.pool.head[0]]);
    case _ =>
  }

  lemma {:induction false} CreateUses(s: State, c: nat)
    requires Inv(s) && Enabled(s, Create(c))
    ensures Measure(After(s, Create(c))) < Measure(s)
  {
    hide ClientOk, PoolOk, ThreadOk, ThreadsWeight, ClientsWeight, Inv;
    InvParts(s, c, |s.threads|);
    MakingIsEarly(s.pool, s.threads, s.clients, c);
    ClientsUpdate(s.clients, c, After(s, Create(c)).clients[c]);
    OneMoreThread(s.threads, c);
  }

  lemma OneMoreThread(ts: seq<Thread>, c: nat)
    ensures ThreadsWeight(ts + [NewThread(Taken(c))]) == ThreadsWeight(ts) + 1
  {
    assert (ts + [NewThread(Taken(c))])[..|ts|] == ts;
  }

  /** The pool is not being destroyed while a dispatcher is at work. */
  lemma MakingIsEarly(p: Pool, ts: seq<Thread>, cs: seq<Client>, c: nat)
    requires PoolOk(p, ts, cs) && c < |cs| && cs[c].d != Join && cs[c].d != Ended
    ensures p.boss == NotYet
  {
  }

  lemma {:induction false} AssignUses(s: State, c: nat, w: Option<nat>)
    requires Inv(s) && Enabled(s, AssignJob(c, w))
    ensures Measure(Assigned(s, c, w)) < Measure(s)
  {
    hide ClientOk, PoolOk, ThreadOk, ThreadsWeight, ClientsWeight, Inv;
    AssignKeeps(s, c, w);
    var t := s.clients[c].d.t;
    InvParts(s, c, t);
    AssignedTo(s.clients[c], c, s.threads);
    NoJobYet(s.threads[t]);
    var s2 := Assigned(s, c, w);
    assert |s2.clients[c].out| <= |s.clients[c].out| + 1;
    ClientsUpdate(s.clients, c, s2.clients[c]);
    ThreadsUpdate(s.threads, t, s2.threads[t]);
  }

  lemma NoJobYet(th: Thread)
    requires ThreadOk(th) && th.place.Taken?
    ensures th.job == None && (th.pc == Top || th.pc == Asleep)
  {
  }

  lemma {:induction false} ClientUses(s: State, l: Label, c: nat)
    requires Inv(s) && Enabled(s, l)
    requires l == AnnounceJob(c) || l == Finish(c) || l == JoinHandler(c) || l == Callback(c)
    ensures Measure(After(s, l)) < Measure(s)
  {
    hide ClientOk, PoolOk, ThreadOk, ThreadsWeight, ClientsWeight, Inv;
    ClientsUpdate(s.clients, c, After(s, l).clients[c]);
  }

  lemma {:induction false} WorkerUses(s: State, l: Label, t: nat)
    requires Inv(s) && Enabled(s, l)
    requires l == CheckRunning(t) || l == RunJob(t) || l == JoinQueue(t) || (l.StopRunning? && l.t == t)
    ensures Measure(After(s, l)) < Measure(s)
  {
    hide ClientOk, PoolOk, ThreadsWeight, ClientsWeight, Inv;
    InvParts(s, |s.clients|, t);
    var s2 := After(s, l);
    ThreadsUpdate(s.threads, t, s2.threads[t]);
    match l
    case StopRunning(_, w) => WakeClients(s.clients, t, w);
    case JoinQueue(_) => ClientsUpdate(s.clients, s.threads[t].pc.c, s2.clients[s.threads[t].pc.c]);
    case _ =>
  }

  lemma {:induction false} LookUses(s: State, c: nat)
    requires Inv(s) && Enabled(s, LookInQueue(c))
    ensures Measure(QueueLookedIn(s, c)) < Measure(s)
  {
    hide ClientOk, PoolOk, ThreadOk, ThreadsWeight, ClientsWeight, Inv;
    InvParts(s, c, |s.threads|);
    var cl, s2 := s.clients[c], QueueLookedIn(s, c);
    if |cl.queue| > 0 {
      OneLessOut(cl, c, s.threads);
      ThreadsUpdate(s.threads, cl.queue[0], s2.threads[cl.queue[0]]);
    }
    ClientsUpdate(s.clients, c, s2.clients[c]);
  }

  lemma OneLessOut(cl: Client, c: nat, ts: seq<Thread>)
    requires ClientOk(cl, c, ts) && |cl.queue| > 0
    ensures |cl.out - {cl.queue[0]}| == |cl.out| - 1
  {
    hide StatusOk, HandlerOk, DispatcherOk, CountOk, OrderOk;
    assert IsOut(c, ts[cl.queue[0]]);
    assert cl.queue[0] in cl.out;
  }

  lemma {:induction false} AwaitUses(s: State, c: nat)
    requires Inv(s) && Enabled(s, AwaitResult(c))
    ensures Measure(ResultAwaited(s, c)) < Measure(s)
  {
    hide ClientOk, PoolOk, ThreadOk, ThreadsWeight, ClientsWeight, Inv;
    var s2, t := ResultAwaited(s, c), s.clients[c].h.t;
    ThreadsUpdate(s.threads, t, s2.threads[t]);
    assert s.threads[t].running ==> s2.threads == s.threads;
    ClientsUpdate(s.clients, c, s2.clients[c]);
  }

  lemma {:induction false} ReturnUses(s: State, c: nat, w: Waiter)
    requires Inv(s) && Enabled(s, ReturnThread(c, w))
    ensures Measure(ThreadReturned(s, c, w)) < Measure(s)
  {
    hide ClientOk, PoolOk, ThreadOk, ThreadsWeight, ClientsWeight, Inv;
    var cl, s2 := s.clients[c], ThreadReturned(s, c, w);
    var cs := s.clients[c := cl.(h := Call(cl.h.id))];
    ClientsUpdate(s.clients, c, cl.(h := Call(cl.h.id)));
    WakeDispatchers(cs, w);
    ThreadsUpdate(s.threads, cl.h.t, s2.threads[cl.h.t]);
  }

  lemma {:induction false} CollectUses(s: State, w: Option<nat>)
    requires Inv(s) && Enabled(s, Collect(w))
    ensures Measure(Collected(s, w)) < Measure(s)
  {
    hide ClientOk, PoolOk, ThreadOk, ThreadsWeight, ClientsWeight, Inv, CanWake;
    if s.pool.count > 0 && |s.pool.head| > 0 {
      var t, s2 := s.pool.head[0], Collected(s, w);
      InvParts(s, |s.clients|, t);
      HeadThread(s);
      NobodyAwaits(s, t, w);
      ThreadsUpdate(s.threads, t, s2.threads[t]);
    }
  }

  lemma {:induction false} JoinThreadUses(s: State)
    requires Inv(s) && Enabled(s, JoinThread)
    ensures Measure(ThreadJoined(s)) < Measure(s)
  {
    hide ClientOk, PoolOk, ThreadOk, ThreadsWeight, ClientsWeight, Inv;
    InvParts(s, |s.clients|, |s.threads|);
    JoinCounts(s.pool, s.threads, s.clients);
    ThreadsUpdate(s.threads, s.pool.boss.t, ThreadJoined(s).threads[s.pool.boss.t]);
  }

  lemma JoinCounts(p: Pool, ts: seq<Thread>, cs: seq<Client>)
    requires PoolOk(p, ts, cs) && p.boss.Joining?
    ensures p.count > 0
  {
    assert p.boss.t in p.alive;
  }

  lemma {:induction false} StartUses(s: State)
    requires Inv(s) && Enabled(s, StartDestroy)
    ensures Measure(After(s, StartDestroy)) < Measure(s)
  {
    hide ClientOk, ThreadOk, HeadOk, AliveOk, SetsOk, SleepersOk, ThreadsWeight, ClientsWeight;
  }

  lemma {:induction false} StepUses(s: State, l: Label)
    requires Inv(s) && CanStep(s, l)
    ensures Measure(After(s, l)) < Measure(s)
  {
    hide Inv, Measure;
    match l
    case TakeThread(c) => DispatcherUses(s, l, c);
    case Grow(c) => DispatcherUses(s, l, c);
    case WaitForThread(c) => DispatcherUses(s, l, c);
    case Create(c) => CreateUses(s, c);
    case AssignJob(c, w) => AssignUses(s, c, w);
    case AnnounceJob(c) => ClientUses(s, l, c);
    case Finish(c) => ClientUses(s, l, c);
    case JoinHandler(c) => ClientUses(s, l, c);
    case Callback(c) => ClientUses(s, l, c);
    case CheckRunning(t) => WorkerUses(s, l, t);
    case RunJob(t) => WorkerUses(s, l, t);
    case StopRunning(t, _) => WorkerUses(s, l, t);
    case JoinQueue(t) => WorkerUses(s, l, t);
    case LookInQueue(c) => LookUses(s, c);
    case AwaitResult(c) => AwaitUses(s, c);
    case ReturnThread(c, w) => ReturnUses(s, c, w);
    case StartDestroy => StartUses(s);
    case Collect(w) => CollectUses(s, w);
    case JoinThread => JoinThreadUses(s);
  }

  /** A run without spurious wakeups has at most as many steps as the measure it starts with. */
  lemma {:induction false} RunsAreBounded(s: State, ls: seq<Label>, s2: State)
    requires Inv(s) && IsRun(s, ls, s2) && forall l <- ls :: !Spurious(l)
    ensures |ls| + Measure(s2) <= Measure(s) && Measure(s2) >= 0
    decreases |ls|
  {
    hide Inv, Measure, Enabled;
    if |ls| == 0 {
      WeightNonNegative(s);
    } else {
      StepUses(s, ls[0]);
      StepKeepsInv(s, ls[0]);
      RunsAreBounded(After(s, ls[0]), ls[1..], s2);
    }
  }

  /** From the start, under any schedule, the pool delivers every job of every client exactly
      once, the ordered ones in dispatch order, and stops only when that is done. */
  lemma {:induction false} EveryRunDelivers(progs: seq<seq<bool>>, max: nat, ls: seq<Label>, s: State)
    requires 0 < max < TWO64 && IsRun(Initial(progs, max), ls, s)
    ensures |s.clients| == |progs|
    ensures forall c :: 0 <= c < |progs| ==> s.clients[c].prog == progs[c]
    ensures (forall l: Label :: !CanStep(s, l)) ==>
              && AllDone(s)
              && forall c :: 0 <= c < |progs| ==>
                   && (forall i :: i in s.clients[c].delivered <==> 0 <= i < |progs[c]|)
                   && (forall p, q :: 0 <= p < q < |s.clients[c].delivered| ==> s.clients[c].delivered[p] != s.clients[c].delivered[q])
                   && Ordered(progs[c], s.clients[c].delivered) == OrderedJobs(progs[c], |progs[c]|)
  {
    hide Inv, CanStep, AllDone, Ordered, OrderedJobs;
    InitialInv(progs, max);
    RunKeepsInv(Initial(progs, max), ls, s);
    ProgramsStay(Initial(progs, max), ls, s);
    if forall l: Label :: !CanStep(s, l) {
      if !AllDone(s) {
        var l := NoDeadlock(s);
      }
      forall c: nat | c < |progs| ensures s.clients[c].h == Quit { DoneMeansQuit(s, c); }
      forall c: nat | c < |progs|
        ensures forall i :: i in s.clients[c].delivered <==> 0 <= i < |progs[c]|
        ensures forall p, q :: 0 <= p < q < |s.clients[c].delivered| ==> s.clients[c].delivered[p] != s.clients[c].delivered[q]
        ensures Ordered(progs[c], s.clients[c].delivered) == OrderedJobs(progs[c], |progs[c]|)
      {
        AllDelivered(s, c);
      }
    }
  }

  /** No run makes more worker threads than the pool was given. */
  lemma {:induction false} ThreadsWithinLimit(progs: seq<seq<bool>>, max: nat, ls: seq<Label>, s: State)
    requires 0 < max < TWO64 && IsRun(Initial(progs, max), ls, s)
    ensures |s.threads| <= max
  {
    hide ClientOk, ThreadOk, PoolOk, IsRun;
    InitialInv(progs, max);
    RunKeepsInv(Initial(progs, max), ls, s);
    ProgramsStay(Initial(progs, max), ls, s);
    PoolBounds(s.pool, s.threads, s.clients);
  }

  lemma DoneMeansQuit(s: State, c: nat)
    requires Inv(s) && AllDone(s) && c < |s.clients|
    ensures s.clients[c].h == Quit
  {
    hide PoolOk, ThreadOk, OutOk, QueueOk, StatusOk, HandlerOk, CountOk, OrderOk;
  }

  ghost predicate SamePrograms(cs: seq<Client>, cs2: seq<Client>) {
    |cs2| == |cs| && forall c :: 0 <= c < |cs| ==> cs2[c].prog == cs[c].prog
  }

  predicate ByHandler(l: Label) { l.LookInQueue? || l.AwaitResult? || l.ReturnThread? || l.Callback? }

  predicate ByPool(l: Label) { l.StartDestroy? || l.Collect? || l.JoinThread? }

  lemma {:induction false} HandlerKeepsProgram(s: State, l: Label)
    requires Enabled(s, l) && ByHandler(l)
    ensures SamePrograms(s.clients, After(s, l).clients) && After(s, l).pool.max == s.pool.max
  {
  }

  lemma {:induction false} PoolKeepsProgram(s: State, l: Label)
    requires Enabled(s, l) && ByPool(l)
    ensures SamePrograms(s.clients, After(s, l).clients) && After(s, l).pool.max == s.pool.max
  {
  }

  lemma {:induction false} WakingKeepsProgram(s: State, l: Label)
    requires Enabled(s, l) && Spurious(l)
    ensures SamePrograms(s.clients, After(s, l).clients) && After(s, l).pool.max == s.pool.max
  {
  }

  lemma {:induction false} OthersKeepProgram(s: State, l: Label)
    requires Enabled(s, l) && !ByHandler(l) && !ByPool(l) && !Spurious(l)
    ensures SamePrograms(s.clients, After(s, l).clients) && After(s, l).pool.max == s.pool.max
  {
  }

  lemma {:induction false} ProgramStays(s: State, l: Label)
    requires Enabled(s, l)
    ensures SamePrograms(s.clients, After(s, l).clients) && After(s, l).pool.max == s.pool.max
  {
    hide Enabled, SamePrograms;
    if ByHandler(l) {
      HandlerKeepsProgram(s, l);
    } else if ByPool(l) {
      PoolKeepsProgram(s, l);
    } else if Spurious(l) {
      WakingKeepsProgram(s, l);
    } else {
      OthersKeepProgram(s, l);
    }
  }

  lemma {:induction false} ProgramsStay(s: State, ls: seq<Label>, s2: State)
    requires IsRun(s, ls, s2)
    ensures |s2.clients| == |s.clients| && forall c :: 0 <= c < |s.clients| ==> s2.clients[c].prog == s.clients[c].prog
    ensures s2.pool.max == s.pool.max
    decreases |ls|
  {
    hide Enabled;
    if |ls| > 0 {
      ProgramStays(s, ls[0]);
      ProgramsStay(After(s, ls[0]), ls[1..], s2);
    }
  }

  // ---------- the counter wraps ----------

  const ONE_UNORDERED := NewClient([false])
  const ANNOUNCING := ONE_UNORDERED.(d := Announce(0, 0), next := 1, out := {0}, status := [On(0)])
  const ONE_THREAD := Pool([], 1, 1, NotYet, {0}, {}, {})

  function Racing(pc: WorkerPc, running: bool, job: Option<nat>, res: Option<nat>, rq: Option<nat>): State {
    State([Thread(pc, running, job, res, rq, Out(0, 0, false))], [ANNOUNCING], ONE_THREAD)
  }

  /** One client with one unordered job, up to the moment its thread has queued itself. */
  function Raced(k: nat): State {
    match k
    case 0 => Initial([[false]], 1)
    case 1 => State([], [ONE_UNORDERED.(d := Make)], ONE_THREAD.(alive := {}, making := {0}))
    case 2 => State([NewThread(Taken(0))], [ONE_UNORDERED.(d := Assign(0))], ONE_THREAD)
    case 3 => Racing(Top, true, Some(0), None, Some(0))
    case 4 => Racing(Work, true, Some(0), None, Some(0))
    case 5 => Racing(Done(Some(0)), true, None, Some(0), None)
    case 6 => Racing(Enqueue(0), false, None, Some(0), None)
    case _ => State([Thread(Top, false, None, Some(0), None, Out(0, 0, false))], [ANNOUNCING.(queue := [0])], ONE_THREAD)
  }

  function RaceLabel(k: nat): Label {
    match k
    case 0 => Grow(0)
    case 1 => Create(0)
    case 2 => AssignJob(0, None)
    case 3 => CheckRunning(0)
    case 4 => RunJob(0)
    case 5 => StopRunning(0, None)
    case _ => JoinQueue(0)
  }

  lemma RaceStarts()
    ensures Enabled(Raced(0), RaceLabel(0)) && After(Raced(0), RaceLabel(0)) == Raced(1)
  {
    var s := Raced(0);
    assert s.clients == [ONE_UNORDERED];
    assert Dispatching(s, 0);
    assert s.pool.ready - {0} == {};
    assert s.pool.making + {0} == {0};
    assert After(s, Grow(0)).clients == Raced(1).clients;
  }

  lemma RaceCreates()
    ensures Enabled(Raced(1), RaceLabel(1)) && After(Raced(1), RaceLabel(1)) == Raced(2)
  {
    var s := Raced(1);
    assert s.pool.making - {0} == {} && s.pool.alive + {0} == {0};
    assert After(s, Create(0)).clients == Raced(2).clients;
  }

  lemma RaceAssigns()
    ensures Enabled(Raced(2), RaceLabel(2)) && After(Raced(2), RaceLabel(2)) == Raced(3)
  {
    var s := Raced(2);
    assert CanWake(s, 0, None);
    var s2 := After(s, AssignJob(0, None));
    assert s2.clients[0] == ANNOUNCING;
    assert s2.clients == Raced(3).clients;
    assert s2.threads == Raced(3).threads;
  }

  lemma RaceRuns(k: nat)
    requires 3 <= k < 7
    ensures Enabled(Raced(k), RaceLabel(k)) && After(Raced(k), RaceLabel(k)) == Raced(k + 1)
  {
    hide Initial;
    var s := Raced(k);
    assert CanWake(s, 0, None);
    var s2 := After(s, RaceLabel(k));
    assert ANNOUNCING.queue + [0] == [0];
    assert s2.clients[0] == Raced(k + 1).clients[0];
    assert s2.clients == Raced(k + 1).clients;
    assert s2.threads == Raced(k + 1).threads;
  }

  lemma {:induction false} RaceReaches(k: nat) returns (ls: seq<Label>)
    requires k <= 7
    ensures IsRun(Raced(k), ls, Raced(7))
    decreases 7 - k
  {
    hide Enabled, Raced, RaceLabel;
    if k == 7 {
      ls := [];
    } else {
      var rest := RaceReaches(k + 1);
      ls := [RaceLabel(k)] + rest;
      if k == 0 { RaceStarts(); } else if k == 1 { RaceCreates(); } else if k == 2 { RaceAssigns(); } else { RaceRuns(k); }
      assert ls[1..] == rest;
    }
  }

  /** An unordered job can be finished and picked up before its dispatcher counts it,
      which takes the counter below zero. */
  lemma {:induction false} CounterWraps() returns (ls: seq<Label>, s: State, s2: State)
    ensures IsRun(Initial([[false]], 1), ls, s) && Enabled(s, LookInQueue(0)) && s2 == After(s, LookInQueue(0))
    ensures |s2.clients| == 1 && s2.clients[0].nthreads == 0xFFFF_FFFF_FFFF_FFFF && s2.clients[0].d.Announce?
  {
    ls := RaceReaches(0);
    s := Raced(7);
    s2 := After(s, LookInQueue(0));
  }
}