/** What the thread pool's invariant gives: one place per thread, assertions that
    hold, results exactly once and in order, no deadlock, and termination. */
module ThreadPoolResults {
  import opened Maybe
  import opened ThreadPool
  import opened ThreadPoolInv
  import opened ThreadPoolSteps

  // ---------- a thread is in one place ----------

  datatype Spot = InHead | InQueue(c: nat) | AtDispatcher(c: nat) | AtHandler(c: nat) | AtBoss

  /** The lists and local variables of the program that point to the thread. */
  predicate IsAt(s: State, t: nat, x: Spot) {
    match x
    case InHead => t in s.pool.head
    case InQueue(c) => c < |s.clients| && t in s.clients[c].queue
    case AtDispatcher(c) => c < |s.clients| && s.clients[c].d == Assign(t)
    case AtHandler(c) =>
      c < |s.clients| && var h := s.clients[c].h; (h == Await(t) || h == AwaitAsleep(t) || (h.Return? && h.t == t))
    case AtBoss => s.pool.boss == Joining(t)
  }

  predicate SpotMeans(x: Spot, p: Place) {
    match x
    case InHead => p == InPool
    case InQueue(c) => p.Out? && p.c == c
    case AtDispatcher(c) => p == Taken(c)
    case AtHandler(c) => (p.Held? && p.c == c) || p == Back(c)
    case AtBoss => p == Retiring
  }

  lemma {:induction false} SpotPlace(s: State, t: nat, x: Spot)
    requires Inv(s) && IsAt(s, t, x)
    ensures t < |s.threads| && SpotMeans(x, s.threads[t].place)
  {
    hide ClientOk, PoolOk, ThreadOk, Inv;
    InvParts(s, |s.clients|, |s.threads|);
    match x
    case InHead => HeadPlace(s.pool, s.threads, s.clients, t);
    case InQueue(c) => InvParts(s, c, t); QueuePlace(s.clients[c], c, s.threads, t);
    case AtDispatcher(c) => InvParts(s, c, t); AssignedTo(s.clients[c], c, s.threads);
    case AtHandler(c) => InvParts(s, c, t); HandPlace(s.clients[c], c, s.threads, t);
    case AtBoss => BossPlace(s.pool, s.threads, s.clients);
  }

  lemma HeadPlace(p: Pool, ts: seq<Thread>, cs: seq<Client>, t: nat)
    requires PoolOk(p, ts, cs) && t in p.head
    ensures t < |ts| && ts[t].place == InPool
  {
  }

  lemma BossPlace(p: Pool, ts: seq<Thread>, cs: seq<Client>)
    requires PoolOk(p, ts, cs) && p.boss.Joining?
    ensures p.boss.t < |ts| && ts[p.boss.t].place == Retiring
  {
  }

  lemma QueuePlace(cl: Client, c: nat, ts: seq<Thread>, t: nat)
    requires ClientOk(cl, c, ts) && t in cl.queue
    ensures t < |ts| && IsOut(c, ts[t])
  {
    hide OutOk, StatusOk, HandlerOk, DispatcherOk, CountOk, OrderOk;
  }

  lemma HandPlace(cl: Client, c: nat, ts: seq<Thread>, t: nat)
    requires ClientOk(cl, c, ts) && (cl.h == Await(t) || cl.h == AwaitAsleep(t) || (cl.h.Return? && cl.h.t == t))
    ensures t < |ts| && (IsHeld(c, ts[t]) || ts[t].place == Back(c))
  {
    hide OutOk, QueueOk, StatusOk, DispatcherOk, CountOk, OrderOk;
  }

  /** In every reachable state no thread is in two places, and no list holds it twice. */
  lemma {:induction false} OnePlace(s: State, t: nat, x: Spot, y: Spot)
    requires Inv(s) && IsAt(s, t, x) && IsAt(s, t, y)
    ensures x == y
  {
    hide Inv, IsAt;
    SpotPlace(s, t, x);
    SpotPlace(s, t, y);
  }

  lemma {:induction false} NoListHoldsTwice(s: State, c: nat)
    requires Inv(s)
    ensures forall i, j :: 0 <= i < j < |s.pool.head| ==> s.pool.head[i] != s.pool.head[j]
    ensures c < |s.clients| ==> forall i, j :: 0 <= i < j < |s.clients[c].queue| ==> s.clients[c].queue[i] != s.clients[c].queue[j]
  {
    hide ThreadOk, OutOk, StatusOk, HandlerOk, DispatcherOk, CountOk, OrderOk, AliveOk, SetsOk, SleepersOk;
  }

  /** At most one thread waits on a worker's condition, so no signal can reach the wrong one. */
  lemma {:induction false} OneWaiter(s: State, t: nat, c: nat, d: nat)
    requires Inv(s) && t < |s.threads| && c < |s.clients| && d < |s.clients| && s.clients[c].h == AwaitAsleep(t)
    ensures s.threads[t].pc != Asleep
    ensures s.clients[d].h == AwaitAsleep(t) ==> d == c
  {
    hide ClientOk, PoolOk, ThreadOk, Inv;
    InvParts(s, c, t);
    InvParts(s, d, t);
    AsleepRuns(s.clients[c], c, s.threads);
    RunningAwake(s.threads[t]);
    if s.clients[d].h == AwaitAsleep(t) { Awaited(s.clients[d], d, s.threads); }
  }

  lemma AsleepRuns(cl: Client, c: nat, ts: seq<Thread>)
    requires ClientOk(cl, c, ts) && cl.h.AwaitAsleep?
    ensures cl.h.t < |ts| && IsHeld(c, ts[cl.h.t]) && ts[cl.h.t].running
  {
    hide OutOk, QueueOk, StatusOk, DispatcherOk, CountOk, OrderOk;
  }

  lemma RunningAwake(th: Thread)
    requires ThreadOk(th) && th.running
    ensures th.pc != Asleep && (th.place.Out? || th.place.Held? ==> th.pc == Top || th.pc == Work || th.pc.Done?)
  {
  }

  // ---------- the program's assertions ----------

  /** The conditions the code asserts before or while taking the step. */
  predicate Asserted(s: State, l: Label)
    requires Enabled(s, l)
  {
    match l
    case TakeThread(c) => var th := s.threads[s.pool.head[0]]; th.job == None && th.res == None && !th.running
    case AssignJob(c, _) => !s.threads[s.clients[c].d.t].running && !Listed(s, s.clients[c].d.t)
    case AnnounceJob(c) => !s.clients[c].finished
    case LookInQueue(c) =>
      QueueLookedIn(s, c).clients[c].h == Quit ==> s.clients[c].queue == [] && s.clients[c].finished && s.clients[c].nthreads == 0
    case Collect(_) => s.pool.count > 0 && |s.pool.head| > 0 ==> s.threads[s.pool.head[0]].job == None
    case _ => true
  }

  predicate Listed(s: State, t: nat) {
    t in s.pool.head || exists c :: 0 <= c < |s.clients| && t in s.clients[c].queue
  }

  lemma {:induction false} AssertionsHold(s: State, l: Label)
    requires Inv(s) && Enabled(s, l)
    ensures Asserted(s, l)
  {
    hide Inv;
    match l
    case TakeThread(c) => TakeThreadKeeps(s, c);
    case AssignJob(c, w) =>
      AssignKeeps(s, c, w);
      var t := s.clients[c].d.t;
      assert IsAt(s, t, AtDispatcher(c));
      if t in s.pool.head { OnePlace(s, t, AtDispatcher(c), InHead); }
      if d: nat :| d < |s.clients| && t in s.clients[d].queue { OnePlace(s, t, AtDispatcher(c), InQueue(d)); }
    case AnnounceJob(c) => AnnounceKeeps(s, c);
    case Collect(w) => CollectKeeps(s, w);
    case _ =>
  }

  // ---------- results: exactly once, and in order ----------

  /** The ordered jobs among these, as they come. */
  function Ordered(prog: seq<bool>, ids: seq<nat>): seq<nat> {
    if |ids| == 0 then []
    else
      var last := ids[|ids| - 1];
      Ordered(prog, ids[..|ids| - 1]) + if last < |prog| && prog[last] then [last] else []
  }

  /** The ordered jobs among the first n, in dispatch order. */
  function OrderedJobs(prog: seq<bool>, n: nat): seq<nat>
    requires n <= |prog|
  {
    if n == 0 then [] else OrderedJobs(prog, n - 1) + if prog[n - 1] then [n - 1] else []
  }

  ghost predicate Rises(a: seq<nat>) { forall i, j :: 0 <= i < j < |a| ==> a[i] < a[j] }

  ghost predicate OrderedRise(prog: seq<bool>, ids: seq<nat>) {
    forall p, q :: 0 <= p < q < |ids| && ids[p] < |prog| && prog[ids[p]] && ids[q] < |prog| && prog[ids[q]] ==> ids[p] < ids[q]
  }

  lemma RisesSnoc(a: seq<nat>, x: nat)
    requires Rises(a) && forall i <- a :: i < x
    ensures Rises(a + [x])
  {
    forall i, j | 0 <= i < j < |a| + 1 ensures (a + [x])[i] < (a + [x])[j] {
      if j == |a| { assert a[i] in a; }
    }
  }

  lemma {:induction false} OrderedFacts(prog: seq<bool>, ids: seq<nat>)
    requires OrderedRise(prog, ids)
    ensures Rises(Ordered(prog, ids))
    ensures forall i :: i in Ordered(prog, ids) <==> i in ids && i < |prog| && prog[i]
  {
    if |ids| > 0 {
      var init := ids[..|ids| - 1];
      var last := ids[|ids| - 1];
      assert ids == init + [last];
      OrderedFacts(prog, init);
      forall i | i in Ordered(prog, init) && last < |prog| && prog[last] ensures i < last {
        var p :| 0 <= p < |init| && init[p] == i;
        assert ids[p] == i;
      }
      if last < |prog| && prog[last] { RisesSnoc(Ordered(prog, init), last); }
    }
  }

  lemma {:induction false} OrderedJobsFacts(prog: seq<bool>, n: nat)
    requires n <= |prog|
    ensures Rises(OrderedJobs(prog, n))
    ensures forall i: nat :: i in OrderedJobs(prog, n) <==> i < n && prog[i]
  {
    if n > 0 {
      OrderedJobsFacts(prog, n - 1);
      if prog[n - 1] { RisesSnoc(OrderedJobs(prog, n - 1), n - 1); }
    }
  }

  lemma {:induction false} OrderedJobsPrefix(prog: seq<bool>, m: nat, n: nat)
    requires m <= n <= |prog|
    ensures OrderedJobs(prog, m) <= OrderedJobs(prog, n)
  {
    if m < n { OrderedJobsPrefix(prog, m, n - 1); }
  }

  lemma {:induction false} RisingUnique(a: seq<nat>, b: seq<nat>)
    requires Rises(a) && Rises(b) && forall i: nat :: i in a <==> i in b
    ensures a == b
  {
    if |a| == 0 {
      if |b| > 0 { SomeMember(b); }
    } else {
      assert a[|a| - 1] in b && b[|b| - 1] in a;
      var n := |a| - 1;
      var x := a[n];
      LastIsGreatest(a);
      LastIsGreatest(b);
      assert x == b[|b| - 1];
      InitOf(a);
      InitOf(b);
      forall i: nat ensures i in a[..n] <==> i in b[..|b| - 1] {
        assert i in a[..n] <==> i in a && i != x;
        assert i in b[..|b| - 1] <==> i in b && i != x;
      }
      RisingUnique(a[..n], b[..|b| - 1]);
      assert a == a[..n] + [x] && b == b[..|b| - 1] + [x];
    }
  }

  lemma SomeMember(b: seq<nat>)
    requires |b| > 0
    ensures exists i: nat :: i in b
  {
    assert b[0] in b;
  }

  lemma LastIsGreatest(a: seq<nat>)
    requires Rises(a) && |a| > 0
    ensures forall i <- a :: i <= a[|a| - 1]
  {
    forall i | i in a ensures i <= a[|a| - 1] { var p :| 0 <= p < |a| && a[p] == i; }
  }

  lemma InitOf(a: seq<nat>)
    requires Rises(a) && |a| > 0
    ensures Rises(a[..|a| - 1]) && forall i: nat :: i in a[..|a| - 1] <==> i in a && i != a[|a| - 1]
  {
    var n := |a| - 1;
    forall i: nat ensures i in a[..n] <==> i in a && i != a[n] {
      if i in a[..n] { var p :| 0 <= p < n && a[..n][p] == i; assert a[p] < a[n]; }
      if i in a && i != a[n] { var p :| 0 <= p < |a| && a[p] == i; assert a[..n][p] == i; }
    }
  }

  /** An ordered job is delivered only after every ordered job dispatched before it. */
  lemma {:induction false} NoneOvertaken(cl: Client, c: nat, ts: seq<Thread>, i: nat, j: nat)
    requires ClientOk(cl, c, ts) && i < j < cl.next && IsOrdered(cl, i) && IsOrdered(cl, j) && j in cl.delivered
    ensures i in cl.delivered
  {
    hide ClientOk, OrderOk, PickedUp;
    DeliveredPicked(cl, j, ts);
    if i !in cl.delivered {
      if PickedUp(cl, i, ts) {
        PickedAfter(cl, c, ts, j, i);
      } else {
        StillQueued(cl, c, ts, i);
        var p :| 0 <= p < |cl.queue| && cl.queue[p] < |ts| && JobOf(ts[cl.queue[p]]) == i;
        QueuedAfter(cl, c, ts, j, p);
      }
    }
  }

  lemma DeliveredPicked(cl: Client, j: nat, ts: seq<Thread>)
    ensures j in cl.delivered ==> PickedUp(cl, j, ts)
  {
  }

  lemma PickedAfter(cl: Client, c: nat, ts: seq<Thread>, j: nat, i: nat)
    requires ClientOk(cl, c, ts) && j in cl.delivered && IsOrdered(cl, j) && IsOrdered(cl, i) && PickedUp(cl, i, ts) && i !in cl.delivered
    ensures j < i
  {
    hide PickedUp, OutOk, QueueOk, StatusOk, HandlerOk, DispatcherOk, CountOk;
  }

  lemma QueuedAfter(cl: Client, c: nat, ts: seq<Thread>, j: nat, p: nat)
    requires ClientOk(cl, c, ts) && p < |cl.queue| && cl.queue[p] < |ts| && IsOrdered(cl, JobOf(ts[cl.queue[p]]))
    requires IsOrdered(cl, j) && PickedUp(cl, j, ts)
    ensures j < JobOf(ts[cl.queue[p]])
  {
    hide PickedUp, OutOk, QueueOk, StatusOk, HandlerOk, DispatcherOk, CountOk;
  }

  lemma {:induction false} StillQueued(cl: Client, c: nat, ts: seq<Thread>, i: nat)
    requires ClientOk(cl, c, ts) && i < cl.next - 1 && IsOrdered(cl, i) && !PickedUp(cl, i, ts)
    ensures exists p :: 0 <= p < |cl.queue| && cl.queue[p] < |ts| && JobOf(ts[cl.queue[p]]) == i
  {
    hide OutOk, CountOk, OrderOk;
    assert cl.status[i].On?;
    var t := cl.status[i].t;
    assert !IsHeld(c, ts[t]);
    assert ts[t].place == Out(c, i, true);
    assert IsOut(c, ts[t]) && ShouldQueue(cl, ts[t]);
    assert t in cl.queue;
  }

  /** At every moment, each delivered job was dispatched and is delivered once, and
      the ordered ones delivered are the first ordered ones dispatched, in order. */
  lemma {:induction false} DeliveredInOrder(s: State, c: nat)
    requires Inv(s) && c < |s.clients|
    ensures var cl := s.clients[c];
            && cl.next <= |cl.prog| && (forall i <- cl.delivered :: i < cl.next)
            && (forall p, q :: 0 <= p < q < |cl.delivered| ==> cl.delivered[p] != cl.delivered[q])
            && Ordered(cl.prog, cl.delivered) <= OrderedJobs(cl.prog, cl.next)
  {
    hide ClientOk, PoolOk, ThreadOk, Inv;
    InvParts(s, c, |s.threads|);
    var cl := s.clients[c];
    DeliveredFacts(cl, c, s.threads);
    var f := Ordered(cl.prog, cl.delivered);
    OrderedFacts(cl.prog, cl.delivered);
    if |f| > 0 {
      var m := f[|f| - 1] + 1;
      assert f[|f| - 1] in f;
      OrderedJobsFacts(cl.prog, m);
      forall i: nat ensures i in f <==> i in OrderedJobs(cl.prog, m) {
        if i in f {
          var p :| 0 <= p < |f| && f[p] == i;
        } else if i < m && cl.prog[i] {
          NoneOvertaken(cl, c, s.threads, i, m - 1);
        }
      }
      RisingUnique(f, OrderedJobs(cl.prog, m));
      OrderedJobsPrefix(cl.prog, m, cl.next);
    }
  }

  lemma {:induction false} DeliveredFacts(cl: Client, c: nat, ts: seq<Thread>)
    requires ClientOk(cl, c, ts)
    ensures cl.next <= |cl.prog| && (forall i <- cl.delivered :: i < cl.next)
    ensures forall p, q :: 0 <= p < q < |cl.delivered| ==> cl.delivered[p] != cl.delivered[q]
    ensures OrderedRise(cl.prog, cl.delivered)
  {
    hide OutOk, QueueOk, HandlerOk, DispatcherOk, CountOk;
  }

  /** The handler exits only when every dispatched job has been delivered, exactly once,
      the ordered ones in dispatch order. */
  lemma {:induction false} AllDelivered(s: State, c: nat)
    requires Inv(s) && c < |s.clients| && s.clients[c].h == Quit
    ensures var cl := s.clients[c];
            && cl.next == |cl.prog| && (forall i :: i in cl.delivered <==> 0 <= i < |cl.prog|)
            && (forall p, q :: 0 <= p < q < |cl.delivered| ==> cl.delivered[p] != cl.delivered[q])
            && Ordered(cl.prog, cl.delivered) == OrderedJobs(cl.prog, |cl.prog|)
  {
    hide ClientOk, PoolOk, ThreadOk, Inv;
    InvParts(s, c, |s.threads|);
    var cl := s.clients[c];
    QuitFacts(cl, c, s.threads);
    DeliveredFacts(cl, c, s.threads);
    OrderedFacts(cl.prog, cl.delivered);
    OrderedJobsFacts(cl.prog, |cl.prog|);
    RisingUnique(Ordered(cl.prog, cl.delivered), OrderedJobs(cl.prog, |cl.prog|));
  }

  lemma {:induction false} QuitFacts(cl: Client, c: nat, ts: seq<Thread>)
    requires ClientOk(cl, c, ts) && cl.h == Quit
    ensures cl.next == |cl.prog| && forall i :: i in cl.delivered <==> 0 <= i < |cl.prog|
  {
    hide QueueOk, CountOk, OrderOk;
    forall i: nat | i < cl.next ensures i in cl.delivered {
    }
  }
}
