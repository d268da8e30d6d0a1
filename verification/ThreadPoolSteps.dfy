/** Every step of the thread pool keeps the invariant, whatever the interleaving. */
module ThreadPoolSteps {
  import opened Maybe
  import opened ThreadPool
  import opened ThreadPoolInv

  /** What is left to show when a step changes at most client c and thread t. */
  lemma {:induction false} KeepInv(s: State, s2: State, c: nat, t: nat)
    requires Inv(s)
    requires |s2.clients| == |s.clients| && forall d: nat :: d < |s.clients| && d != c ==> s2.clients[d] == s.clients[d]
    requires |s.threads| <= |s2.threads| <= |s.threads| + 1 && (|s2.threads| > |s.threads| ==> t == |s.threads|)
    requires forall u: nat :: u < |s.threads| && u != t ==> s2.threads[u] == s.threads[u]
    requires t < |s2.threads| ==> ThreadOk(s2.threads[t]) && (Owner(s2.threads[t].place).Some? ==> Owner(s2.threads[t].place).value < |s.clients|)
    requires t < |s.threads| ==> forall d: nat :: d < |s.clients| && d != c ==> SameFor(d, s.threads[t], s2.threads[t])
    requires t == |s.threads| < |s2.threads| ==> Owner(s2.threads[t].place) == Some(c)
    requires c < |s.clients| ==> ClientOk(s2.clients[c], c, s2.threads)
    requires PoolOk(s2.pool, s2.threads, s2.clients)
    ensures Inv(s2)
  {
    hide ThreadOk, ClientOk, PoolOk;
    forall d: nat | d < |s2.clients| ensures ClientOk(s2.clients[d], d, s2.threads) {
      if d != c {
        forall u: nat | u < |s.threads| ensures SameFor(d, s.threads[u], s2.threads[u]) { }
        ClientFrame(s.clients[d], d, s.threads, s2.threads);
      }
    }
    forall u: nat | u < |s2.threads| ensures ThreadOk(s2.threads[u]) { if u != t { assert s2.threads[u] == s.threads[u]; } }
  }

  // ---------- frames for the pool ----------

  datatype PlaceView = ViewIn | ViewRetiring | ViewGone | ViewOut

  function ViewPlace(p: Place): PlaceView {
    if p == InPool then ViewIn else if p == Retiring then ViewRetiring else if p == Gone then ViewGone else ViewOut
  }

  datatype ClientView = ViewMake | ViewReady | ViewSleeping | ViewOver | ViewBusy

  function ViewClient(cl: Client): ClientView {
    match cl.d
    case Make => ViewMake
    case Next => if cl.next < |cl.prog| then ViewReady else ViewBusy
    case Sleeping => ViewSleeping
    case Join => ViewOver
    case Ended => ViewOver
    case _ => ViewBusy
  }

  /** The pool sees of a thread whether it is in, retiring or gone, and of a client what its dispatcher wants. */
  lemma {:induction false} PoolFrame(p: Pool, ts: seq<Thread>, ts2: seq<Thread>, cs: seq<Client>, cs2: seq<Client>)
    requires PoolOk(p, ts, cs) && |ts2| == |ts| && |cs2| == |cs|
    requires forall t: nat :: t < |ts| ==> ViewPlace(ts2[t].place) == ViewPlace(ts[t].place)
    requires forall c: nat :: c < |cs| ==> ViewClient(cs2[c]) == ViewClient(cs[c])
    ensures PoolOk(p, ts2, cs2)
  {
    PlacesFrame(p, ts, ts2);
    ClientsFrame(p, cs, cs2);
  }

  lemma {:induction false} PlacesFrame(p: Pool, ts: seq<Thread>, ts2: seq<Thread>)
    requires HeadOk(p, ts) && AliveOk(p, ts) && |ts2| == |ts|
    requires forall t: nat :: t < |ts| ==> ViewPlace(ts2[t].place) == ViewPlace(ts[t].place)
    ensures HeadOk(p, ts2) && AliveOk(p, ts2)
  {
  }

  lemma {:induction false} ClientsFrame(p: Pool, cs: seq<Client>, cs2: seq<Client>)
    requires SetsOk(p, cs) && SleepersOk(p, cs) && |cs2| == |cs|
    requires forall c: nat :: c < |cs| ==> ViewClient(cs2[c]) == ViewClient(cs[c])
    ensures SetsOk(p, cs2) && SleepersOk(p, cs2)
  {
    forall c: nat | c < |cs| ensures (cs2[c].d == Sleeping) == (cs[c].d == Sleeping) && (cs2[c].d == Make) == (cs[c].d == Make) {
      assert ViewClient(cs2[c]) == ViewClient(cs[c]);
    }
  }

  // ---------- frames for a client ----------

  /** Only the dispatcher moves, not into or out of an announcement. */
  lemma {:induction false} DispatcherMoves(cl: Client, d: Dispatcher, c: nat, ts: seq<Thread>, ts2: seq<Thread>)
    requires ClientOk(cl, c, ts) && SameAnnounce(cl.d, d)
    requires OutSame(c, ts, ts2) && HeldSame(c, ts, ts2) && HeldRunSame(c, ts, ts2) && BackSame(c, ts, ts2)
    requires DispatcherOk(cl.(d := d), c, ts2)
    ensures ClientOk(cl.(d := d), c, ts2)
  {
    hide OutOk, QueueOk, StatusOk, HandlerOk, DispatcherOk, OrderOk, OutSame, HeldSame, HeldRunSame, BackSame, PickedUp;
    var cl2 := cl.(d := d);
    FrameOut(cl, cl2, c, ts, ts2);
    FrameQueue(cl, cl2, c, ts, ts2);
    FrameStatus(cl, cl2, c, ts, ts2);
    FrameHandler(cl, cl2, c, ts, ts2);
    SameJobs(cl, c, ts, ts2);
    SamePicked(cl, cl2, c, ts, ts2);
    FrameOrder(cl, cl2, ts, ts2);
  }

  /** Only the handler moves, without picking a job up or putting one down. */
  lemma {:induction false} HandlerMoves(cl: Client, h: Handler, c: nat, ts: seq<Thread>, ts2: seq<Thread>)
    requires ClientOk(cl, c, ts) && SameInHand(cl.h, h) && HandThread(cl.h) == HandThread(h) && cl.h != Quit
    requires OutSame(c, ts, ts2) && HeldSame(c, ts, ts2) && TakenSame(c, ts, ts2)
    requires HandlerOk(cl.(h := h), c, ts2)
    ensures ClientOk(cl.(h := h), c, ts2)
  {
    hide OutOk, QueueOk, StatusOk, HandlerOk, DispatcherOk, OrderOk, OutSame, HeldSame, TakenSame, PickedUp;
    var cl2 := cl.(h := h);
    FrameOut(cl, cl2, c, ts, ts2);
    FrameQueue(cl, cl2, c, ts, ts2);
    FrameStatus(cl, cl2, c, ts, ts2);
    FrameDispatcher(cl, cl2, c, ts, ts2);
    SameJobs(cl, c, ts, ts2);
    SamePicked(cl, cl2, c, ts, ts2);
    FrameOrder(cl, cl2, ts, ts2);
  }

  lemma NothingSame(c: nat, ts: seq<Thread>)
    ensures OutSame(c, ts, ts) && HeldSame(c, ts, ts) && HeldRunSame(c, ts, ts) && BackSame(c, ts, ts) && TakenSame(c, ts, ts)
  {
  }

  // ---------- the dispatcher takes, waits for or makes a thread ----------

  lemma {:induction false} TakeThreadKeeps(s: State, c: nat)
    requires Inv(s) && Enabled(s, TakeThread(c))
    ensures Inv(TakenThread(s, c))
    ensures var th := s.threads[s.pool.head[0]]; th.job == None && th.res == None && !th.running
  {
    hide ClientOk, PoolOk;
    var t := s.pool.head[0];
    HeadThread(s);
    TakeClient(s.clients[c], c, s.threads, t);
    TakePool(s.pool, s.threads, s.clients, c);
    KeepInv(s, TakenThread(s, c), c, t);
  }

  lemma HeadThread(s: State)
    requires PoolOk(s.pool, s.threads, s.clients) && |s.pool.head| > 0
    ensures s.pool.head[0] < |s.threads| && s.threads[s.pool.head[0]].place == InPool
  {
  }

  lemma {:induction false} TakeClient(cl: Client, c: nat, ts: seq<Thread>, t: nat)
    requires ClientOk(cl, c, ts) && cl.d == Next && cl.next < |cl.prog| && t < |ts| && ts[t].place == InPool
    ensures ClientOk(cl.(d := Assign(t)), c, ts[t := ts[t].(place := Taken(c))])
  {
    hide OutOk, QueueOk, StatusOk, HandlerOk, CountOk, OrderOk;
    DispatcherMoves(cl, Assign(t), c, ts, ts[t := ts[t].(place := Taken(c))]);
  }

  lemma {:induction false} TakePool(p: Pool, ts: seq<Thread>, cs: seq<Client>, c: nat)
    requires PoolOk(p, ts, cs) && c < |cs| && cs[c].d == Next && cs[c].next < |cs[c].prog| && |p.head| > 0
    ensures p.head[0] < |ts|
    ensures PoolOk(p.(head := p.head[1..], ready := p.ready - {c}), ts[p.head[0] := ts[p.head[0]].(place := Taken(c))],
                   cs[c := cs[c].(d := Assign(p.head[0]))])
  {
    assert p.head == [p.head[0]] + p.head[1..];
    assert |p.ready - {c}| == |p.ready| - 1;
  }

  lemma {:induction false} GrowKeeps(s: State, c: nat)
    requires Inv(s) && Enabled(s, Grow(c))
    ensures Inv(Grown(s, c))
  {
    hide ClientOk, PoolOk, ThreadOk;
    GrowClient(s.clients[c], c, s.threads, Make);
    GrowPool(s.pool, s.threads, s.clients, c);
    KeepInv(s, Grown(s, c), c, |s.threads| + 1);
  }

  lemma {:induction false} GrowClient(cl: Client, c: nat, ts: seq<Thread>, d: Dispatcher)
    requires ClientOk(cl, c, ts) && cl.d == Next && cl.next < |cl.prog| && (d == Make || d == Sleeping)
    ensures ClientOk(cl.(d := d), c, ts)
  {
    hide OutOk, QueueOk, StatusOk, HandlerOk, CountOk, OrderOk;
    NothingSame(c, ts);
    DispatcherMoves(cl, d, c, ts, ts);
  }

  lemma {:induction false} GrowPool(p: Pool, ts: seq<Thread>, cs: seq<Client>, c: nat)
    requires PoolOk(p, ts, cs) && c < |cs| && cs[c].d == Next && cs[c].next < |cs[c].prog| && |p.head| == 0 && p.count != p.max
    ensures PoolOk(p.(count := p.count + 1, making := p.making + {c}, ready := p.ready - {c}), ts, cs[c := cs[c].(d := Make)])
  {
    hide HeadOk, AliveOk;
    var p2 := p.(count := p.count + 1, making := p.making + {c}, ready := p.ready - {c});
    SameHead(p, p2, ts);
    assert c !in p.making && |p2.making| == |p.making| + 1;
    assert SetsOk(p2, cs[c := cs[c].(d := Make)]);
    forall d: nat | d < |cs| ensures cs[d].d != Sleeping { }
    assert SleepersOk(p2, cs[c := cs[c].(d := Make)]);
  }

  lemma SameHead(p: Pool, p2: Pool, ts: seq<Thread>)
    requires HeadOk(p, ts) && AliveOk(p, ts) && p2.head == p.head && p2.alive == p.alive && p2.boss == p.boss
    ensures HeadOk(p2, ts) && AliveOk(p2, ts)
  {
  }

  lemma {:induction false} WaitForThreadKeeps(s: State, c: nat)
    requires Inv(s) && Enabled(s, WaitForThread(c))
    ensures Inv(WaitingForThread(s, c))
  {
    hide ClientOk, PoolOk, ThreadOk;
    GrowClient(s.clients[c], c, s.threads, Sleeping);
    WaitPool(s.pool, s.threads, s.clients, c);
    KeepInv(s, WaitingForThread(s, c), c, |s.threads| + 1);
  }

  lemma {:induction false} WaitPool(p: Pool, ts: seq<Thread>, cs: seq<Client>, c: nat)
    requires PoolOk(p, ts, cs) && c < |cs| && cs[c].d == Next && cs[c].next < |cs[c].prog| && |p.head| == 0 && p.count == p.max
    ensures PoolOk(p.(ready := p.ready - {c}), ts, cs[c := cs[c].(d := Sleeping)])
  {
    hide HeadOk, AliveOk;
    SameHead(p, p.(ready := p.ready - {c}), ts);
  }

  lemma {:induction false} CreateKeeps(s: State, c: nat)
    requires Inv(s) && Enabled(s, Create(c))
    ensures Inv(Created(s, c))
  {
    hide ClientOk, PoolOk;
    CreateClient(s.clients[c], c, s.threads);
    CreatePool(s.pool, s.threads, s.clients, c);
    KeepInv(s, Created(s, c), c, |s.threads|);
  }

  lemma {:induction false} CreateClient(cl: Client, c: nat, ts: seq<Thread>)
    requires ClientOk(cl, c, ts) && cl.d == Make
    ensures ClientOk(cl.(d := Assign(|ts|)), c, ts + [NewThread(Taken(c))])
  {
    hide OutOk, QueueOk, StatusOk, HandlerOk, CountOk, OrderOk;
    DispatcherMoves(cl, Assign(|ts|), c, ts, ts + [NewThread(Taken(c))]);
  }

  lemma {:induction false} CreatePool(p: Pool, ts: seq<Thread>, cs: seq<Client>, c: nat)
    requires PoolOk(p, ts, cs) && c < |cs| && cs[c].d == Make
    ensures var t: nat := |ts|;
            PoolOk(p.(alive := p.alive + {t}, making := p.making - {c}), ts + [NewThread(Taken(c))], cs[c := cs[c].(d := Assign(t))])
  {
    var t: nat := |ts|;
    assert p.boss == NotYet;
    assert c in p.making;
    assert |p.making - {c}| == |p.making| - 1;
    assert |p.alive + {t}| == |p.alive| + 1;
  }

  // ---------- handing a job over ----------

  /** With one waiter at most, the signal that starts a job can only wake the worker. */
  lemma {:induction false} NobodyAwaits(s: State, t: nat, w: Option<nat>)
    requires Inv(s) && t < |s.threads| && !s.threads[t].place.Held? && CanWake(s, t, w)
    ensures w == None
  {
    hide ThreadOk, PoolOk, ClientOk;
    if w.Some? { Awaited(s.clients[w.value], w.value, s.threads); }
  }

  lemma Awaited(cl: Client, c: nat, ts: seq<Thread>)
    requires ClientOk(cl, c, ts) && (cl.h.Await? || cl.h.AwaitAsleep?)
    ensures cl.h.t < |ts| && IsHeld(c, ts[cl.h.t])
  {
    hide OutOk, QueueOk, StatusOk, DispatcherOk, CountOk, OrderOk;
  }

  lemma {:induction false} AssignKeeps(s: State, c: nat, w: Option<nat>)
    requires Inv(s) && Enabled(s, AssignJob(c, w))
    ensures Inv(Assigned(s, c, w))
    ensures w == None && !s.threads[s.clients[c].d.t].running
  {
    hide ClientOk, PoolOk, Inv, ThreadOk, CanWake;
    InvParts(s, c, s.clients[c].d.t);
    var cl := s.clients[c];
    var t, id := cl.d.t, cl.next;
    AssignedTo(cl, c, s.threads);
    NobodyAwaits(s, t, w);
    var th := s.threads[t];
    StartJob(th, c, id, cl.prog[id], w);
    var th2 := Assigned(s, c, w).threads[t];
    AssignClient(cl, c, s.threads, th2);
    PoolFrame(s.pool, s.threads, s.threads[t := th2], s.clients, Assigned(s, c, w).clients);
    KeepInv(s, Assigned(s, c, w), c, t);
  }

  lemma InvParts(s: State, c: nat, t: nat)
    requires Inv(s)
    ensures c < |s.clients| ==> ClientOk(s.clients[c], c, s.threads)
    ensures t < |s.threads| ==> ThreadOk(s.threads[t])
    ensures t < |s.threads| && Owner(s.threads[t].place).Some? ==> Owner(s.threads[t].place).value < |s.clients|
    ensures PoolOk(s.pool, s.threads, s.clients)
  {
    hide ClientOk, PoolOk, ThreadOk;
  }

  lemma AssignedTo(cl: Client, c: nat, ts: seq<Thread>)
    requires ClientOk(cl, c, ts) && cl.d.Assign?
    ensures cl.d.t < |ts| && ts[cl.d.t].place == Taken(c) && cl.next < |cl.prog| && !cl.finished
  {
    hide OutOk, QueueOk, StatusOk, HandlerOk, CountOk, OrderOk;
  }

  function Started(th: Thread, c: nat, id: nat, ordered: bool): Thread {
    th.(rq := if ordered then None else Some(c), job := Some(id), running := true, place := Out(c, id, ordered))
  }

  lemma StartJob(th: Thread, c: nat, id: nat, ordered: bool, w: Option<nat>)
    requires ThreadOk(th) && th.place == Taken(c) && w == None
    ensures var th2 := WokenThread(Started(th, c, id, ordered), w);
            ThreadOk(th2) && th2.place == Out(c, id, ordered) && th2.running && !th.running
  {
  }

  lemma {:induction false} AssignClient(cl: Client, c: nat, ts: seq<Thread>, th: Thread)
    requires ClientOk(cl, c, ts) && cl.d.Assign? && cl.d.t < |ts| && ts[cl.d.t].place == Taken(c) && cl.next < |cl.prog|
    requires th.place == Out(c, cl.next, cl.prog[cl.next]) && th.running
    ensures ClientOk(cl.(d := Announce(cl.d.t, cl.next), next := cl.next + 1, out := cl.out + {cl.d.t}, status := cl.status + [On(cl.d.t)]),
                     c, ts[cl.d.t := th])
  {
    hide OutOk, QueueOk, StatusOk, HandlerOk, DispatcherOk, OrderOk, PickedUp;
    var t, id := cl.d.t, cl.next;
    var ts2 := ts[t := th];
    var cl2 := cl.(d := Announce(t, id), next := id + 1, out := cl.out + {t}, status := cl.status + [On(t)]);
    AssignOut(cl, cl2, c, ts, th);
    AssignQueue(cl, cl2, c, ts, th);
    AssignStatus(cl, cl2, c, ts, th);
    AssignHandler(cl, cl2, c, ts, th);
    AssignDispatcher(cl, cl2, c, ts, th);
    assert HeldSame(c, ts, ts2);
    SamePicked(cl, cl2, c, ts, ts2);
    AssignOrder(cl, cl2, c, ts, th);
  }

  lemma {:induction false} AssignOut(cl: Client, cl2: Client, c: nat, ts: seq<Thread>, th: Thread)
    requires OutOk(cl, c, ts) && cl.d.Assign? && cl.d.t < |ts| && ts[cl.d.t].place == Taken(c) && IsOut(c, th)
    requires cl2.out == cl.out + {cl.d.t}
    ensures OutOk(cl2, c, ts[cl.d.t := th]) && |cl2.out| == |cl.out| + 1
  {
    assert cl.d.t !in cl.out;
  }

  lemma {:induction false} AssignQueue(cl: Client, cl2: Client, c: nat, ts: seq<Thread>, th: Thread)
    requires QueueOk(cl, c, ts) && StatusOk(cl, c, ts) && cl.d.Assign? && cl.d.t < |ts| && ts[cl.d.t].place == Taken(c)
    requires cl.next < |cl.prog| && th.place == Out(c, cl.next, cl.prog[cl.next]) && th.running
    requires cl2.queue == cl.queue && cl2.d == Announce(cl.d.t, cl.next)
    ensures QueueOk(cl2, c, ts[cl.d.t := th])
  {
    var t := cl.d.t;
    var ts2 := ts[t := th];
    forall u: nat | u < |ts2| && IsOut(c, ts2[u]) ensures u in cl2.queue <==> ShouldQueue(cl2, ts2[u]) {
      if u != t { assert IsOut(c, ts[u]) && ts[u].place.id < cl.next; }
    }
  }

  lemma {:induction false} AssignStatus(cl: Client, cl2: Client, c: nat, ts: seq<Thread>, th: Thread)
    requires StatusOk(cl, c, ts) && cl.d.Assign? && cl.d.t < |ts| && ts[cl.d.t].place == Taken(c)
    requires cl.next < |cl.prog| && th.place == Out(c, cl.next, cl.prog[cl.next])
    requires cl2 == cl.(d := Announce(cl.d.t, cl.next), next := cl.next + 1, out := cl2.out, status := cl.status + [On(cl.d.t)])
    ensures StatusOk(cl2, c, ts[cl.d.t := th])
  {
    var t := cl.d.t;
    var ts2 := ts[t := th];
    forall i | 0 <= i < cl2.next && cl2.status[i].On? ensures cl2.status[i].t < |ts2| && HasJob(ts2[cl2.status[i].t].place, c, i, cl.prog[i]) {
      if i < cl.next { assert cl2.status[i] == cl.status[i]; }
    }
    forall u: nat | u < |ts2| && (IsOut(c, ts2[u]) || IsHeld(c, ts2[u]))
      ensures ts2[u].place.id < cl2.next && cl2.status[ts2[u].place.id] == On(u) && ts2[u].place.ordered == cl2.prog[ts2[u].place.id] {
      if u != t { assert ts2[u] == ts[u]; }
    }
  }

  lemma {:induction false} AssignHandler(cl: Client, cl2: Client, c: nat, ts: seq<Thread>, th: Thread)
    requires HandlerOk(cl, c, ts) && DispatcherOk(cl, c, ts) && cl.d.Assign? && cl.d.t < |ts| && ts[cl.d.t].place == Taken(c) && IsOut(c, th)
    requires cl2.h == cl.h && cl2.queue == cl.queue && cl2.finished == cl.finished && cl2.nthreads == cl.nthreads
    ensures HandlerOk(cl2, c, ts[cl.d.t := th])
  {
  }

  lemma {:induction false} AssignDispatcher(cl: Client, cl2: Client, c: nat, ts: seq<Thread>, th: Thread)
    requires DispatcherOk(cl, c, ts) && cl.d.Assign? && cl.d.t < |ts| && ts[cl.d.t].place == Taken(c)
    requires cl.next < |cl.prog| && th.place == Out(c, cl.next, cl.prog[cl.next])
    requires cl2.d == Announce(cl.d.t, cl.next) && cl2.next == cl.next + 1 && cl2.prog == cl.prog && cl2.finished == cl.finished
    ensures DispatcherOk(cl2, c, ts[cl.d.t := th])
  {
  }

  lemma {:induction false} AssignOrder(cl: Client, cl2: Client, c: nat, ts: seq<Thread>, th: Thread)
    requires OrderOk(cl, ts) && QueueOk(cl, c, ts) && cl.d.Assign? && cl.d.t < |ts| && ts[cl.d.t].place == Taken(c)
    requires cl2.queue == cl.queue && cl2.delivered == cl.delivered && cl2.prog == cl.prog
    requires forall i: nat :: PickedUp(cl2, i, ts[cl.d.t := th]) == PickedUp(cl, i, ts)
    ensures OrderOk(cl2, ts[cl.d.t := th])
  {
    var ts2 := ts[cl.d.t := th];
    forall p | 0 <= p < |cl.queue| ensures JobOf(ts2[cl.queue[p]]) == JobOf(ts[cl.queue[p]]) { assert cl.queue[p] != cl.d.t; }
    FrameOrder(cl, cl2, ts, ts2);
  }

  // ---------- telling the queue ----------

  function Counted(cl: Client): Client {
    cl.(d := Next, nthreads := if cl.nthreads == TWO64 - 1 then 0 else cl.nthreads + 1)
  }

  lemma {:induction false} AnnounceKeeps(s: State, c: nat)
    requires Inv(s) && Enabled(s, AnnounceJob(c))
    ensures Inv(Announced(s, c))
    ensures !s.clients[c].finished
  {
    hide ClientOk, PoolOk, Inv, ThreadOk;
    InvParts(s, c, |s.threads|);
    var cl := s.clients[c];
    RangeOfOut(cl, c, s.threads);
    PoolBounds(s.pool, s.threads, s.clients);
    if cl.prog[cl.d.id] {
      AnnounceOrdered(cl, c, s.threads);
    } else {
      AnnounceUnordered(cl, c, s.threads);
    }
    AnnouncePool(s.pool, s.threads, s.clients, c, Announced(s, c).clients[c]);
    KeepInv(s, Announced(s, c), c, |s.threads| + 1);
  }

  lemma {:induction false} RangeOfOut(cl: Client, c: nat, ts: seq<Thread>)
    requires ClientOk(cl, c, ts)
    ensures |cl.out| <= |ts|
  {
    hide QueueOk, StatusOk, HandlerOk, DispatcherOk, OrderOk, CountOk;
    SubsetOfRange(cl.out, |ts|);
  }

  lemma {:induction false} SubsetOfRange(a: set<nat>, n: nat)
    requires forall x <- a :: x < n
    ensures |a| <= n
    decreases n
  {
    if n == 0 {
      assert a == {};
    } else {
      var m: nat := n - 1;
      SubsetOfRange(a - {m}, m);
    }
  }

  lemma PoolBounds(p: Pool, ts: seq<Thread>, cs: seq<Client>)
    requires PoolOk(p, ts, cs)
    ensures |ts| <= p.max < TWO64
  {
  }

  lemma {:induction false} AnnounceUnordered(cl: Client, c: nat, ts: seq<Thread>)
    requires ClientOk(cl, c, ts) && cl.d.Announce? && cl.d.id < |cl.prog| && !cl.prog[cl.d.id] && |cl.out| < TWO64
    ensures ClientOk(Counted(cl), c, ts) && !cl.finished
  {
    hide OutOk, QueueOk, StatusOk, OrderOk, PickedUp, OutSame, HeldSame, HeldRunSame, BackSame, TakenSame;
    var cl2 := Counted(cl);
    NothingSame(c, ts);
    FrameOut(cl, cl2, c, ts, ts);
    NotAnnounced(cl, cl2, c, ts);
    FrameStatus(cl, cl2, c, ts, ts);
    SameJobs(cl, c, ts, ts);
    SamePicked(cl, cl2, c, ts, ts);
    FrameOrder(cl, cl2, ts, ts);
  }

  lemma {:induction false} NotAnnounced(cl: Client, cl2: Client, c: nat, ts: seq<Thread>)
    requires QueueOk(cl, c, ts) && StatusOk(cl, c, ts) && cl.d.Announce? && cl.d.id < cl.next && !cl.prog[cl.d.id]
    requires cl2.queue == cl.queue && cl2.d == Next
    ensures QueueOk(cl2, c, ts)
  {
    forall u: nat | u < |ts| && IsOut(c, ts[u]) ensures u in cl2.queue <==> ShouldQueue(cl2, ts[u]) {
      assert ts[u].place.id < cl.next;
    }
  }

  lemma {:induction false} AnnounceOrdered(cl: Client, c: nat, ts: seq<Thread>)
    requires ClientOk(cl, c, ts) && cl.d.Announce? && cl.d.id < |cl.prog| && cl.prog[cl.d.id] && |cl.out| < TWO64
    ensures ClientOk(WokenHandler(Counted(cl).(queue := cl.queue + [cl.d.t])), c, ts) && !cl.finished
  {
    hide OutOk, QueueOk, StatusOk, HandlerOk, OrderOk, PickedUp, OutSame, HeldSame, HeldRunSame, BackSame, TakenSame;
    var cl2 := WokenHandler(Counted(cl).(queue := cl.queue + [cl.d.t]));
    NothingSame(c, ts);
    FrameOut(cl, cl2, c, ts, ts);
    FrameStatus(cl, cl2, c, ts, ts);
    QueueGrows(cl, cl2, c, ts);
    HandlerWoken(cl, cl2, c, ts);
    SamePicked(cl, cl2, c, ts, ts);
    OrderGrows(cl, cl2, c, ts);
  }

  lemma {:induction false} QueueGrows(cl: Client, cl2: Client, c: nat, ts: seq<Thread>)
    requires QueueOk(cl, c, ts) && StatusOk(cl, c, ts) && cl.d.Announce? && cl.d.id < cl.next
    requires cl.d.t < |ts| && ts[cl.d.t].place == Out(c, cl.d.id, true)
    requires cl2.queue == cl.queue + [cl.d.t] && cl2.d == Next
    ensures QueueOk(cl2, c, ts)
  {
    var t := cl.d.t;
    assert t !in cl.queue;
    forall u: nat | u < |ts| && IsOut(c, ts[u]) ensures u in cl2.queue <==> ShouldQueue(cl2, ts[u]) {
      if u != t { assert ts[u].place.id != cl.d.id; }
    }
  }

  /** The handler may be woken, and then it looks again. */
  lemma HandlerWoken(cl: Client, cl2: Client, c: nat, ts: seq<Thread>)
    requires HandlerOk(cl, c, ts) && !cl.finished && cl2.out == cl.out && !cl2.finished
    requires cl2.h == if cl.h == Idle then Look else cl.h
    ensures HandlerOk(cl2, c, ts)
  {
  }

  lemma {:induction false} OrderGrows(cl: Client, cl2: Client, c: nat, ts: seq<Thread>)
    requires OrderOk(cl, ts) && QueueOk(cl, c, ts) && StatusOk(cl, c, ts) && HandlerOk(cl, c, ts) && cl.d.Announce? && cl.d.id == cl.next - 1
    requires cl.d.t < |ts| && ts[cl.d.t].place == Out(c, cl.d.id, true)
    requires cl2.queue == cl.queue + [cl.d.t] && cl2.delivered == cl.delivered && cl2.prog == cl.prog
    requires forall i: nat :: PickedUp(cl2, i, ts) == PickedUp(cl, i, ts)
    ensures OrderOk(cl2, ts)
  {
    hide PickedUp, QueueOk, StatusOk, HandlerOk;
    QueueBelow(cl, c, ts);
    forall i: nat | PickedUp(cl, i, ts) ensures i < cl.d.id { PickedUpBelow(cl, c, ts, i); }
    assert JobOf(ts[cl.d.t]) == cl.d.id;
    assert forall p :: 0 <= p < |cl.queue| ==> cl2.queue[p] == cl.queue[p];
  }

  lemma {:induction false} QueueBelow(cl: Client, c: nat, ts: seq<Thread>)
    requires QueueOk(cl, c, ts) && StatusOk(cl, c, ts) && cl.d.Announce? && cl.d.id == cl.next - 1
    requires cl.d.t < |ts| && ts[cl.d.t].place == Out(c, cl.d.id, true)
    ensures forall p :: 0 <= p < |cl.queue| ==> cl.queue[p] < |ts| && JobOf(ts[cl.queue[p]]) < cl.d.id
  {
    forall p | 0 <= p < |cl.queue| ensures JobOf(ts[cl.queue[p]]) < cl.d.id {
      var u := cl.queue[p];
      assert IsOut(c, ts[u]) && IsOut(c, ts[cl.d.t]);
      assert cl.status[ts[u].place.id] == On(u) && cl.status[cl.d.id] == On(cl.d.t);
      assert cl.d.t !in cl.queue;
    }
  }

  lemma {:induction false} PickedUpBelow(cl: Client, c: nat, ts: seq<Thread>, i: nat)
    requires StatusOk(cl, c, ts) && HandlerOk(cl, c, ts) && PickedUp(cl, i, ts) && cl.d.Announce? && cl.d.id == cl.next - 1
    requires cl.d.t < |ts| && ts[cl.d.t].place == Out(c, cl.d.id, true)
    ensures i < cl.d.id
  {
    assert IsOut(c, ts[cl.d.t]);
    assert cl.status[cl.d.id] == On(cl.d.t);
  }

  lemma {:induction false} AnnouncePool(p: Pool, ts: seq<Thread>, cs: seq<Client>, c: nat, cl2: Client)
    requires PoolOk(p, ts, cs) && c < |cs| && cs[c].d.Announce? && cl2.d == Next
    ensures PoolOk(p.(ready := if cl2.next < |cl2.prog| then p.ready + {c} else p.ready), ts, cs[c := cl2])
  {
    hide HeadOk, AliveOk;
    SameHead(p, p.(ready := if cl2.next < |cl2.prog| then p.ready + {c} else p.ready), ts);
    assert |p.ready + {c}| >= |p.ready|;
  }

  // ---------- finishing ----------

  lemma {:induction false} FinishKeeps(s: State, c: nat)
    requires Inv(s) && Enabled(s, Finish(c))
    ensures Inv(Finished(s, c))
  {
    hide ClientOk, PoolOk, Inv, ThreadOk;
    InvParts(s, c, |s.threads|);
    FinishClient(s.clients[c], c, s.threads);
    FinishPool(s.pool, s.threads, s.clients, c, Finished(s, c).clients[c]);
    KeepInv(s, Finished(s, c), c, |s.threads| + 1);
  }

  lemma {:induction false} FinishClient(cl: Client, c: nat, ts: seq<Thread>)
    requires ClientOk(cl, c, ts) && cl.d == Next && cl.next == |cl.prog|
    ensures ClientOk(WokenHandler(cl.(d := Join, finished := true)), c, ts)
  {
    hide OutOk, QueueOk, StatusOk, OrderOk, PickedUp, OutSame, HeldSame, HeldRunSame, BackSame, TakenSame;
    var cl2 := WokenHandler(cl.(d := Join, finished := true));
    NothingSame(c, ts);
    FrameOut(cl, cl2, c, ts, ts);
    FrameQueue(cl, cl2, c, ts, ts);
    FrameStatus(cl, cl2, c, ts, ts);
    SameJobs(cl, c, ts, ts);
    SamePicked(cl, cl2, c, ts, ts);
    FrameOrder(cl, cl2, ts, ts);
  }

  lemma {:induction false} FinishPool(p: Pool, ts: seq<Thread>, cs: seq<Client>, c: nat, cl2: Client)
    requires PoolOk(p, ts, cs) && c < |cs| && cs[c].d == Next && cs[c].next == |cs[c].prog| && cl2.d == Join
    ensures PoolOk(p, ts, cs[c := cl2])
  {
    hide HeadOk, AliveOk;
  }

  lemma {:induction false} JoinHandlerKeeps(s: State, c: nat)
    requires Inv(s) && Enabled(s, JoinHandler(c))
    ensures Inv(After(s, JoinHandler(c)))
  {
    hide ClientOk, PoolOk, Inv, ThreadOk;
    InvParts(s, c, |s.threads|);
    EndClient(s.clients[c], c, s.threads);
    PoolFrame(s.pool, s.threads, s.threads, s.clients, After(s, JoinHandler(c)).clients);
    KeepInv(s, After(s, JoinHandler(c)), c, |s.threads| + 1);
  }

  lemma {:induction false} EndClient(cl: Client, c: nat, ts: seq<Thread>)
    requires ClientOk(cl, c, ts) && cl.d == Join && cl.h == Quit
    ensures ClientOk(cl.(d := Ended), c, ts)
  {
    hide OutOk, QueueOk, StatusOk, HandlerOk, CountOk, OrderOk;
    NothingSame(c, ts);
    DispatcherMoves(cl, Ended, c, ts, ts);
  }

  // ---------- the worker ----------

  lemma {:induction false} WorkerMoves(s: State, t: nat, th: Thread)
    requires Inv(s) && t < |s.threads| && th.place == s.threads[t].place && ThreadOk(th)
    requires Waiting(th) == Waiting(s.threads[t]) && th.running == s.threads[t].running
    ensures Inv(s.(threads := s.threads[t := th]))
  {
    hide ClientOk, PoolOk, Inv, ThreadOk;
    InvParts(s, |s.clients|, t);
    PoolFrame(s.pool, s.threads, s.threads[t := th], s.clients, s.clients);
    KeepInv(s, s.(threads := s.threads[t := th]), |s.clients|, t);
  }

  lemma {:induction false} CheckRunningKeeps(s: State, t: nat)
    requires Inv(s) && Enabled(s, CheckRunning(t))
    ensures Inv(RunningChecked(s, t))
  {
    hide ClientOk, PoolOk, Inv;
    InvParts(s, |s.clients|, t);
    WorkerMoves(s, t, RunningChecked(s, t).threads[t]);
  }

  lemma {:induction false} RunJobKeeps(s: State, t: nat)
    requires Inv(s) && Enabled(s, RunJob(t))
    ensures Inv(JobRun(s, t))
  {
    hide ClientOk, PoolOk, Inv;
    InvParts(s, |s.clients|, t);
    WorkerMoves(s, t, JobRun(s, t).threads[t]);
  }

  lemma {:induction false} StopRunningKeeps(s: State, t: nat, w: Option<nat>)
    requires Inv(s) && Enabled(s, StopRunning(t, w))
    ensures Inv(StoppedRunning(s, t, w))
  {
    hide ClientOk, PoolOk, Inv, ThreadOk, CanWake;
    InvParts(s, |s.clients|, t);
    var th := s.threads[t];
    var c := StopFacts(th);
    InvParts(s, c, t);
    var th2 := StoppedRunning(s, t, w).threads[t];
    if th.pc.rq == None && th.place.Held? {
      WhoAwaits(s, c, t, w);
      StopHeld(s.clients[c], c, s.threads, t, th2, w);
      PoolFrame(s.pool, s.threads, s.threads[t := th2], s.clients, StoppedRunning(s, t, w).clients);
    } else {
      if th.pc.rq == None { NobodyAwaits(s, t, w); }
      StopOut(s.clients[c], c, s.threads, t, th2);
      PoolFrame(s.pool, s.threads, s.threads[t := th2], s.clients, s.clients);
    }
    KeepInv(s, StoppedRunning(s, t, w), c, t);
  }

  lemma StopFacts(th: Thread) returns (c: nat)
    requires ThreadOk(th) && th.pc.Done?
    ensures Owner(th.place) == Some(c) && th.running && !Waiting(th) && (th.place.Held? || th.place.Out?)
    ensures th.pc.rq == (if th.place.ordered then None else Some(c)) && (th.place.Held? ==> th.place.ordered)
    ensures th.pc.rq.Some? ==> ThreadOk(th.(running := false, pc := Enqueue(c)))
    ensures th.pc.rq == None ==> ThreadOk(th.(running := false, pc := Top))
  {
    c := th.place.c;
  }

  /** Only the handler that holds a thread waits on it. */
  lemma {:induction false} WhoAwaits(s: State, c: nat, t: nat, w: Option<nat>)
    requires Inv(s) && t < |s.threads| && c < |s.clients| && IsHeld(c, s.threads[t]) && s.threads[t].pc != Asleep && CanWake(s, t, w)
    ensures w == if s.clients[c].h == AwaitAsleep(t) then Some(c) else None
  {
    hide ThreadOk, PoolOk, ClientOk;
    if w.Some? { Awaited(s.clients[w.value], w.value, s.threads); }
  }

  lemma {:induction false} StopOut(cl: Client, c: nat, ts: seq<Thread>, t: nat, th: Thread)
    requires ClientOk(cl, c, ts) && t < |ts| && IsOut(c, ts[t]) && th.place == ts[t].place
    requires ts[t].place.ordered || Waiting(th) == Waiting(ts[t])
    ensures ClientOk(cl, c, ts[t := th])
  {
    hide ClientOk;
    FramesKeep(cl, c, ts, ts[t := th]);
  }

  lemma {:induction false} StopHeld(cl: Client, c: nat, ts: seq<Thread>, t: nat, th: Thread, w: Option<nat>)
    requires ClientOk(cl, c, ts) && t < |ts| && IsHeld(c, ts[t]) && th.place == ts[t].place
    requires w == if cl.h == AwaitAsleep(t) then Some(c) else None
    ensures ClientOk(if w.Some? then cl.(h := Await(t)) else cl, c, ts[t := th])
    ensures cl.h == Await(t) || cl.h == AwaitAsleep(t)
  {
    hide OutOk, QueueOk, StatusOk, DispatcherOk, CountOk, OrderOk;
    assert cl.h == Await(t) || cl.h == AwaitAsleep(t);
    assert (if w.Some? then cl.(h := Await(t)) else cl) == cl.(h := Await(t));
    HandlerMoves(cl, Await(t), c, ts, ts[t := th]);
  }

  lemma {:induction false} JoinQueueKeeps(s: State, t: nat)
    requires Inv(s) && Enabled(s, JoinQueue(t))
    ensures Inv(QueueJoined(s, t))
  {
    hide ClientOk, PoolOk, Inv, ThreadOk;
    InvParts(s, s.threads[t].pc.c, t);
    var th := s.threads[t];
    var c := th.pc.c;
    EnqueueFacts(th);
    var th2 := th.(pc := Top);
    EnqueueClient(s.clients[c], c, s.threads, t);
    PoolFrame(s.pool, s.threads, s.threads[t := th2], s.clients, QueueJoined(s, t).clients);
    KeepInv(s, QueueJoined(s, t), c, t);
  }

  lemma EnqueueFacts(th: Thread)
    requires ThreadOk(th) && th.pc.Enqueue?
    ensures th.place.Out? && th.place.c == th.pc.c && !th.place.ordered && ThreadOk(th.(pc := Top))
    ensures !Waiting(th) && Waiting(th.(pc := Top))
  {
  }

  lemma {:induction false} EnqueueClient(cl: Client, c: nat, ts: seq<Thread>, t: nat)
    requires ClientOk(cl, c, ts) && t < |ts| && IsOut(c, ts[t]) && !ts[t].place.ordered && !Waiting(ts[t]) && Waiting(ts[t].(pc := Top))
    ensures ClientOk(WokenHandler(cl.(queue := cl.queue + [t])), c, ts[t := ts[t].(pc := Top)])
  {
    hide OutOk, QueueOk, StatusOk, HandlerOk, DispatcherOk, OrderOk, PickedUp;
    var th := ts[t].(pc := Top);
    var ts2 := ts[t := th];
    var cl2 := WokenHandler(cl.(queue := cl.queue + [t]));
    EnqueueOut(cl, cl2, c, ts, t, th);
    EnqueueQueue(cl, cl2, c, ts, t, th);
    assert HeldSame(c, ts, ts2);
    EnqueueStatus(cl, cl2, c, ts, t, th);
    EnqueueHandler(cl, cl2, c, ts, t, th);
    EnqueueDispatcher(cl, cl2, c, ts, t, th);
    SamePicked(cl, cl2, c, ts, ts2);
    EnqueueOrder(cl, cl2, c, ts, t, th);
  }

  lemma {:induction false} EnqueueOut(cl: Client, cl2: Client, c: nat, ts: seq<Thread>, t: nat, th: Thread)
    requires OutOk(cl, c, ts) && t < |ts| && th.place == ts[t].place && cl2.out == cl.out
    ensures OutOk(cl2, c, ts[t := th])
  {
  }

  lemma {:induction false} EnqueueQueue(cl: Client, cl2: Client, c: nat, ts: seq<Thread>, t: nat, th: Thread)
    requires QueueOk(cl, c, ts) && t < |ts| && IsOut(c, ts[t]) && !ts[t].place.ordered && !Waiting(ts[t]) && Waiting(th)
    requires th.place == ts[t].place && cl2.queue == cl.queue + [t] && cl2.d == cl.d
    ensures QueueOk(cl2, c, ts[t := th])
  {
    var ts2 := ts[t := th];
    assert t !in cl.queue;
    forall u: nat | u < |ts2| && IsOut(c, ts2[u]) ensures u in cl2.queue <==> ShouldQueue(cl2, ts2[u]) {
      if u != t { assert ts2[u] == ts[u]; }
    }
  }

  lemma {:induction false} EnqueueStatus(cl: Client, cl2: Client, c: nat, ts: seq<Thread>, t: nat, th: Thread)
    requires StatusOk(cl, c, ts) && t < |ts| && th.place == ts[t].place
    requires cl2.prog == cl.prog && cl2.next == cl.next && cl2.status == cl.status && cl2.delivered == cl.delivered && SameInHand(cl.h, cl2.h)
    ensures StatusOk(cl2, c, ts[t := th])
  {
    var ts2 := ts[t := th];
    forall u: nat | u < |ts2| && (IsOut(c, ts2[u]) || IsHeld(c, ts2[u])) ensures IsOut(c, ts[u]) || IsHeld(c, ts[u]) { }
  }

  lemma {:induction false} EnqueueHandler(cl: Client, cl2: Client, c: nat, ts: seq<Thread>, t: nat, th: Thread)
    requires HandlerOk(cl, c, ts) && t < |ts| && IsOut(c, ts[t]) && th.place == ts[t].place && OutOk(cl, c, ts)
    requires cl2.h == (if cl.h == Idle then Look else cl.h) && cl2.out == cl.out && cl2.finished == cl.finished
    ensures HandlerOk(cl2, c, ts[t := th])
  {
    assert t in cl.out;
    forall u: nat | u < |ts| && (IsHeld(c, ts[t := th][u]) || ts[t := th][u].place == Back(c)) ensures ts[t := th][u] == ts[u] { }
  }

  lemma {:induction false} EnqueueDispatcher(cl: Client, cl2: Client, c: nat, ts: seq<Thread>, t: nat, th: Thread)
    requires DispatcherOk(cl, c, ts) && t < |ts| && th.place == ts[t].place
    requires cl2.d == cl.d && cl2.next == cl.next && cl2.prog == cl.prog && cl2.finished == cl.finished && (cl.h == Quit ==> cl2.h == Quit)
    ensures DispatcherOk(cl2, c, ts[t := th])
  {
  }

  lemma {:induction false} EnqueueOrder(cl: Client, cl2: Client, c: nat, ts: seq<Thread>, t: nat, th: Thread)
    requires OrderOk(cl, ts) && StatusOk(cl, c, ts) && t < |ts| && IsOut(c, ts[t]) && !ts[t].place.ordered && th.place == ts[t].place
    requires cl2.queue == cl.queue + [t] && cl2.delivered == cl.delivered && cl2.prog == cl.prog
    requires forall i: nat :: PickedUp(cl2, i, ts[t := th]) == PickedUp(cl, i, ts)
    ensures OrderOk(cl2, ts[t := th])
  {
    hide PickedUp;
    var ts2 := ts[t := th];
    assert !IsOrdered(cl, JobOf(ts[t]));
    var n := |cl.queue|;
    forall p | 0 <= p < |cl2.queue| && IsOrdered(cl2, JobOf(ts2[cl2.queue[p]]))
      ensures p < n && cl2.queue[p] == cl.queue[p] && JobOf(ts2[cl2.queue[p]]) == JobOf(ts[cl.queue[p]]) && IsOrdered(cl, JobOf(ts[cl.queue[p]]))
    {
    }
    forall p, i: nat | 0 <= p < |cl2.queue| && IsOrdered(cl2, JobOf(ts2[cl2.queue[p]])) && IsOrdered(cl2, i) && PickedUp(cl2, i, ts2)
      ensures i < JobOf(ts2[cl2.queue[p]])
    {
      assert PickedUp(cl, i, ts) && IsOrdered(cl, i);
    }
  }

  // ---------- the result handler ----------

  lemma {:induction false} LookKeeps(s: State, c: nat)
    requires Inv(s) && Enabled(s, LookInQueue(c))
    ensures Inv(QueueLookedIn(s, c))
  {
    hide ClientOk, PoolOk, Inv, ThreadOk;
    var cl := s.clients[c];
    InvParts(s, c, |s.threads|);
    RangeOfOut(cl, c, s.threads);
    PoolBounds(s.pool, s.threads, s.clients);
    if |cl.queue| > 0 {
      var t := cl.queue[0];
      InvParts(s, c, t);
      QueueHead(cl, c, s.threads);
      PickUpThread(s.threads[t]);
      PickUpClient(cl, c, s.threads);
      PoolFrame(s.pool, s.threads, QueueLookedIn(s, c).threads, s.clients, QueueLookedIn(s, c).clients);
      KeepInv(s, QueueLookedIn(s, c), c, t);
    } else {
      StopLooking(cl, c, s.threads);
      PoolFrame(s.pool, s.threads, s.threads, s.clients, QueueLookedIn(s, c).clients);
      KeepInv(s, QueueLookedIn(s, c), c, |s.threads| + 1);
    }
  }

  lemma QueueHead(cl: Client, c: nat, ts: seq<Thread>)
    requires ClientOk(cl, c, ts) && |cl.queue| > 0
    ensures cl.queue[0] < |ts| && IsOut(c, ts[cl.queue[0]])
    ensures !ts[cl.queue[0]].place.ordered ==> Waiting(ts[cl.queue[0]])
  {
    hide OutOk, StatusOk, HandlerOk, DispatcherOk, CountOk, OrderOk;
    assert cl.queue[0] in cl.queue;
  }

  function PickedUpThread(th: Thread): Thread
    requires th.place.Out?
  {
    th.(place := Held(th.place.c, th.place.id, th.place.ordered))
  }

  lemma PickUpThread(th: Thread)
    requires ThreadOk(th) && th.place.Out? && (!th.place.ordered ==> Waiting(th))
    ensures ThreadOk(PickedUpThread(th))
  {
  }

  function PickedUpClient(cl: Client): Client
    requires |cl.queue| > 0
  {
    cl.(queue := cl.queue[1..], nthreads := if cl.nthreads == 0 then TWO64 - 1 else cl.nthreads - 1,
        h := Await(cl.queue[0]), out := cl.out - {cl.queue[0]})
  }

  lemma {:induction false} PickUpClient(cl: Client, c: nat, ts: seq<Thread>)
    requires ClientOk(cl, c, ts) && cl.h == Look && |cl.queue| > 0 && cl.queue[0] < |ts| && IsOut(c, ts[cl.queue[0]]) && |cl.out| < TWO64
    ensures ClientOk(PickedUpClient(cl), c, ts[cl.queue[0] := PickedUpThread(ts[cl.queue[0]])])
  {
    hide OutOk, QueueOk, StatusOk, HandlerOk, DispatcherOk, OrderOk, PickedUp;
    PickUpOut(cl, c, ts);
    PickUpQueue(cl, c, ts);
    PickUpStatus(cl, c, ts);
    PickUpHandler(cl, c, ts);
    PickUpDispatcher(cl, c, ts);
    PickUpOrder(cl, c, ts);
  }

  lemma {:induction false} PickUpOut(cl: Client, c: nat, ts: seq<Thread>)
    requires OutOk(cl, c, ts) && |cl.queue| > 0 && cl.queue[0] < |ts| && IsOut(c, ts[cl.queue[0]])
    ensures OutOk(PickedUpClient(cl), c, ts[cl.queue[0] := PickedUpThread(ts[cl.queue[0]])])
    ensures |PickedUpClient(cl).out| == |cl.out| - 1
  {
    assert cl.queue[0] in cl.out;
  }

  lemma {:induction false} PickUpQueue(cl: Client, c: nat, ts: seq<Thread>)
    requires QueueOk(cl, c, ts) && |cl.queue| > 0 && cl.queue[0] < |ts| && IsOut(c, ts[cl.queue[0]])
    ensures QueueOk(PickedUpClient(cl), c, ts[cl.queue[0] := PickedUpThread(ts[cl.queue[0]])])
  {
    var cl2, t := PickedUpClient(cl), cl.queue[0];
    var ts2 := ts[t := PickedUpThread(ts[t])];
    assert cl.queue == [t] + cl2.queue;
    forall u: nat | u < |ts2| && IsOut(c, ts2[u]) ensures u in cl2.queue <==> ShouldQueue(cl2, ts2[u]) {
      assert u != t && ts2[u] == ts[u];
    }
  }

  lemma {:induction false} PickUpStatus(cl: Client, c: nat, ts: seq<Thread>)
    requires StatusOk(cl, c, ts) && cl.h == Look && |cl.queue| > 0 && cl.queue[0] < |ts| && IsOut(c, ts[cl.queue[0]])
    ensures StatusOk(PickedUpClient(cl), c, ts[cl.queue[0] := PickedUpThread(ts[cl.queue[0]])])
  {
    var t := cl.queue[0];
    var ts2 := ts[t := PickedUpThread(ts[t])];
    forall u: nat | u < |ts2| && (IsOut(c, ts2[u]) || IsHeld(c, ts2[u]))
      ensures (IsOut(c, ts[u]) || IsHeld(c, ts[u])) && ts2[u].place.id == ts[u].place.id && ts2[u].place.ordered == ts[u].place.ordered { }
  }

  lemma {:induction false} PickUpHandler(cl: Client, c: nat, ts: seq<Thread>)
    requires HandlerOk(cl, c, ts) && cl.h == Look && |cl.queue| > 0 && cl.queue[0] < |ts| && IsOut(c, ts[cl.queue[0]])
    ensures HandlerOk(PickedUpClient(cl), c, ts[cl.queue[0] := PickedUpThread(ts[cl.queue[0]])])
  {
  }

  lemma {:induction false} PickUpDispatcher(cl: Client, c: nat, ts: seq<Thread>)
    requires DispatcherOk(cl, c, ts) && QueueOk(cl, c, ts) && cl.h == Look && |cl.queue| > 0 && cl.queue[0] < |ts| && IsOut(c, ts[cl.queue[0]])
    ensures DispatcherOk(PickedUpClient(cl), c, ts[cl.queue[0] := PickedUpThread(ts[cl.queue[0]])])
  {
    var t := cl.queue[0];
    assert t in cl.queue;
    assert ShouldQueue(cl, ts[t]);
  }

  lemma {:induction false} PickUpOrder(cl: Client, c: nat, ts: seq<Thread>)
    requires OrderOk(cl, ts) && QueueOk(cl, c, ts) && HandlerOk(cl, c, ts) && cl.h == Look
    requires |cl.queue| > 0 && cl.queue[0] < |ts| && IsOut(c, ts[cl.queue[0]])
    ensures OrderOk(PickedUpClient(cl), ts[cl.queue[0] := PickedUpThread(ts[cl.queue[0]])])
  {
    var cl2, t := PickedUpClient(cl), cl.queue[0];
    var ts2 := ts[t := PickedUpThread(ts[t])];
    var id := ts[t].place.id;
    assert JobOf(ts[t]) == id;
    forall i: nat ensures PickedUp(cl2, i, ts2) == (PickedUp(cl, i, ts) || i == id) { }
    forall p | 0 <= p < |cl2.queue|
      ensures cl2.queue[p] == cl.queue[p + 1] && cl2.queue[p] < |ts| && JobOf(ts2[cl2.queue[p]]) == JobOf(ts[cl.queue[p + 1]]) { assert cl.queue[p + 1] != t; }
    forall i: nat ensures PickedUp(cl, i, ts) <==> i in cl.delivered { }
    hide PickedUp, QueueOk, HandlerOk;
    forall p, q | 0 <= p < q < |cl2.queue| && IsOrdered(cl2, JobOf(ts2[cl2.queue[p]])) && IsOrdered(cl2, JobOf(ts2[cl2.queue[q]]))
      ensures JobOf(ts2[cl2.queue[p]]) < JobOf(ts2[cl2.queue[q]])
    {
      assert JobOf(ts[cl.queue[p + 1]]) < JobOf(ts[cl.queue[q + 1]]);
    }
    forall p, i: nat | 0 <= p < |cl2.queue| && IsOrdered(cl2, JobOf(ts2[cl2.queue[p]])) && IsOrdered(cl2, i) && PickedUp(cl2, i, ts2)
      ensures i < JobOf(ts2[cl2.queue[p]])
    {
      if i == id { assert JobOf(ts[cl.queue[0]]) < JobOf(ts[cl.queue[p + 1]]); } else { assert i < JobOf(ts[cl.queue[p + 1]]); }
    }
    forall i, j: nat | i in cl2.delivered && IsOrdered(cl2, i) && IsOrdered(cl2, j) && PickedUp(cl2, j, ts2) && j !in cl2.delivered
      ensures i < j
    {
      assert j == id && PickedUp(cl2, i, ts2) && PickedUp(cl, i, ts) && JobOf(ts[cl.queue[0]]) == id;
    }
  }

  /** Nothing queued: the handler exits if everything has been picked up, and waits otherwise. */
  lemma {:induction false} StopLooking(cl: Client, c: nat, ts: seq<Thread>)
    requires ClientOk(cl, c, ts) && cl.h == Look && |cl.queue| == 0
    ensures ClientOk(cl.(h := if cl.finished && cl.nthreads == 0 then Quit else Idle), c, ts)
  {
    hide OutOk, QueueOk, StatusOk, OrderOk;
    var h := if cl.finished && cl.nthreads == 0 then Quit else Idle;
    NothingSame(c, ts);
    assert HandlerOk(cl.(h := h), c, ts);
    HandlerMoves(cl, h, c, ts, ts);
  }

  lemma {:induction false} AwaitKeeps(s: State, c: nat)
    requires Inv(s) && Enabled(s, AwaitResult(c))
    ensures Inv(ResultAwaited(s, c))
  {
    hide ClientOk, PoolOk, Inv, ThreadOk;
    var cl := s.clients[c];
    var t := cl.h.t;
    InvParts(s, c, t);
    Awaited(cl, c, s.threads);
    if s.threads[t].running {
      FallAsleep(cl, c, s.threads);
      PoolFrame(s.pool, s.threads, s.threads, s.clients, ResultAwaited(s, c).clients);
      KeepInv(s, ResultAwaited(s, c), c, |s.threads| + 1);
    } else {
      TakeResult(cl, c, s.threads);
      ResultTaken(cl, c, s.threads);
      PoolFrame(s.pool, s.threads, ResultAwaited(s, c).threads, s.clients, ResultAwaited(s, c).clients);
      KeepInv(s, ResultAwaited(s, c), c, t);
    }
  }

  lemma {:induction false} FallAsleep(cl: Client, c: nat, ts: seq<Thread>)
    requires ClientOk(cl, c, ts) && cl.h.Await? && cl.h.t < |ts| && ts[cl.h.t].running
    ensures ClientOk(cl.(h := AwaitAsleep(cl.h.t)), c, ts)
  {
    hide OutOk, QueueOk, StatusOk, DispatcherOk, CountOk, OrderOk;
    NothingSame(c, ts);
    HandlerMoves(cl, AwaitAsleep(cl.h.t), c, ts, ts);
  }

  /** A thread whose job has stopped running holds that job's result. */
  lemma TakeResult(cl: Client, c: nat, ts: seq<Thread>)
    requires ClientOk(cl, c, ts) && cl.h.Await? && cl.h.t < |ts| && IsHeld(c, ts[cl.h.t]) && ThreadOk(ts[cl.h.t]) && !ts[cl.h.t].running
    ensures ts[cl.h.t].res == Some(ts[cl.h.t].place.id) && ts[cl.h.t].place.id < |cl.status|
    ensures ThreadOk(ts[cl.h.t].(res := None, place := Back(c)))
  {
    hide OutOk, QueueOk, HandlerOk, DispatcherOk, CountOk, OrderOk;
  }

  function ResultTakenClient(cl: Client, id: nat): Client
    requires cl.h.Await? && id < |cl.status|
  {
    cl.(h := Return(cl.h.t, id), status := cl.status[id := InHand])
  }

  lemma {:induction false} ResultTaken(cl: Client, c: nat, ts: seq<Thread>)
    requires ClientOk(cl, c, ts) && cl.h.Await? && cl.h.t < |ts| && IsHeld(c, ts[cl.h.t]) && ts[cl.h.t].place.id < |cl.status|
    ensures ClientOk(ResultTakenClient(cl, ts[cl.h.t].place.id), c, ts[cl.h.t := ts[cl.h.t].(res := None, place := Back(c))])
  {
    hide OutOk, QueueOk, StatusOk, HandlerOk, DispatcherOk, OrderOk, PickedUp;
    var t, id := cl.h.t, ts[cl.h.t].place.id;
    var cl2, ts2 := ResultTakenClient(cl, id), ts[t := ts[t].(res := None, place := Back(c))];
    assert OutSame(c, ts, ts2) && TakenSame(c, ts, ts2);
    FrameOut(cl, cl2, c, ts, ts2);
    FrameQueue(cl, cl2, c, ts, ts2);
    FrameDispatcher(cl, cl2, c, ts, ts2);
    TakeStatus(cl, c, ts);
    TakeHandler(cl, c, ts);
    SameJobs(cl, c, ts, ts2);
    forall i: nat ensures PickedUp(cl2, i, ts2) == PickedUp(cl, i, ts) { StillPicked(cl, c, ts, i); }
    FrameOrder(cl, cl2, ts, ts2);
  }

  lemma StillPicked(cl: Client, c: nat, ts: seq<Thread>, i: nat)
    requires cl.h.Await? && cl.h.t < |ts| && IsHeld(c, ts[cl.h.t]) && ts[cl.h.t].place.id < |cl.status|
    ensures PickedUp(ResultTakenClient(cl, ts[cl.h.t].place.id), i, ts[cl.h.t := ts[cl.h.t].(res := None, place := Back(c))]) == PickedUp(cl, i, ts)
  {
  }

  lemma {:induction false} TakeStatus(cl: Client, c: nat, ts: seq<Thread>)
    requires StatusOk(cl, c, ts) && cl.h.Await? && cl.h.t < |ts| && IsHeld(c, ts[cl.h.t]) && ts[cl.h.t].place.id < |cl.status|
    ensures StatusOk(ResultTakenClient(cl, ts[cl.h.t].place.id), c, ts[cl.h.t := ts[cl.h.t].(res := None, place := Back(c))])
  {
    var t, id := cl.h.t, ts[cl.h.t].place.id;
    var cl2, ts2 := ResultTakenClient(cl, id), ts[t := ts[t].(res := None, place := Back(c))];
    assert cl.status[id] == On(t);
    forall i | 0 <= i < cl2.next && cl2.status[i].On? ensures cl2.status[i].t < |ts2| && HasJob(ts2[cl2.status[i].t].place, c, i, cl.prog[i]) {
      assert i != id && cl.status[i] == cl2.status[i];
      assert cl.status[i].t != t;
    }
    forall u: nat | u < |ts2| && (IsOut(c, ts2[u]) || IsHeld(c, ts2[u]))
      ensures ts2[u].place.id < cl2.next && cl2.status[ts2[u].place.id] == On(u) && ts2[u].place.ordered == cl2.prog[ts2[u].place.id] {
      assert u != t && ts2[u] == ts[u];
    }
  }

  lemma {:induction false} TakeHandler(cl: Client, c: nat, ts: seq<Thread>)
    requires HandlerOk(cl, c, ts) && cl.h.Await? && cl.h.t < |ts| && IsHeld(c, ts[cl.h.t]) && ts[cl.h.t].place.id < |cl.status|
    ensures HandlerOk(ResultTakenClient(cl, ts[cl.h.t].place.id), c, ts[cl.h.t := ts[cl.h.t].(res := None, place := Back(c))])
  {
  }

  lemma {:induction false} CallbackKeeps(s: State, c: nat)
    requires Inv(s) && Enabled(s, Callback(c))
    ensures Inv(CalledBack(s, c))
  {
    hide ClientOk, PoolOk, Inv, ThreadOk;
    InvParts(s, c, |s.threads|);
    DeliverClient(s.clients[c], c, s.threads);
    PoolFrame(s.pool, s.threads, s.threads, s.clients, CalledBack(s, c).clients);
    KeepInv(s, CalledBack(s, c), c, |s.threads| + 1);
  }

  lemma {:induction false} DeliverClient(cl: Client, c: nat, ts: seq<Thread>)
    requires ClientOk(cl, c, ts) && cl.h.Call?
    ensures cl.h.id < |cl.status|
    ensures ClientOk(cl.(h := Look, delivered := cl.delivered + [cl.h.id], status := cl.status[cl.h.id := Delivered]), c, ts)
  {
    hide OutOk, QueueOk, DispatcherOk, OrderOk, PickedUp;
    var id := cl.h.id;
    var cl2 := cl.(h := Look, delivered := cl.delivered + [id], status := cl.status[id := Delivered]);
    NothingSame(c, ts);
    FrameOut(cl, cl2, c, ts, ts);
    FrameQueue(cl, cl2, c, ts, ts);
    FrameDispatcher(cl, cl2, c, ts, ts);
    DeliverStatus(cl, c, ts);
    DeliverOrder(cl, c, ts);
  }

  lemma {:induction false} DeliverStatus(cl: Client, c: nat, ts: seq<Thread>)
    requires StatusOk(cl, c, ts) && cl.h.Call? && cl.h.id < |cl.status|
    ensures StatusOk(cl.(h := Look, delivered := cl.delivered + [cl.h.id], status := cl.status[cl.h.id := Delivered]), c, ts)
  {
    var id := cl.h.id;
    assert cl.status[id] == InHand && id !in cl.delivered;
    var cl2 := cl.(h := Look, delivered := cl.delivered + [id], status := cl.status[id := Delivered]);
    forall t: nat | t < |ts| && (IsOut(c, ts[t]) || IsHeld(c, ts[t])) ensures ts[t].place.id != id { assert cl.status[ts[t].place.id] == On(t); }
  }

  lemma {:induction false} DeliverOrder(cl: Client, c: nat, ts: seq<Thread>)
    requires OrderOk(cl, ts) && StatusOk(cl, c, ts) && cl.h.Call? && cl.h.id < |cl.status|
    ensures OrderOk(cl.(h := Look, delivered := cl.delivered + [cl.h.id], status := cl.status[cl.h.id := Delivered]), ts)
  {
    var id := cl.h.id;
    var cl2 := cl.(h := Look, delivered := cl.delivered + [id], status := cl.status[id := Delivered]);
    assert cl.status[id] == InHand && id !in cl.delivered;
    forall i: nat ensures PickedUp(cl2, i, ts) == PickedUp(cl, i, ts) { }
    assert PickedUp(cl, id, ts);
    forall i: nat | PickedUp(cl2, i, ts) ensures i in cl2.delivered { }
    hide PickedUp, StatusOk;
    forall p, q | 0 <= p < q < |cl2.delivered| && IsOrdered(cl2, cl2.delivered[p]) && IsOrdered(cl2, cl2.delivered[q])
      ensures cl2.delivered[p] < cl2.delivered[q]
    {
      assert cl.delivered[p] in cl.delivered;
    }
  }

  // ---------- spurious wakeups ----------

  lemma {:induction false} WakeWorkerKeeps(s: State, t: nat)
    requires Inv(s) && Enabled(s, WakeWorker(t))
    ensures Inv(After(s, WakeWorker(t)))
  {
    hide ClientOk, PoolOk, Inv;
    InvParts(s, |s.clients|, t);
    WorkerMoves(s, t, s.threads[t].(pc := Top));
  }

  lemma {:induction false} WakeDispatcherKeeps(s: State, c: nat)
    requires Inv(s) && Enabled(s, WakeDispatcher(c))
    ensures Inv(After(s, WakeDispatcher(c)))
  {
    hide ClientOk, PoolOk, Inv, ThreadOk;
    InvParts(s, c, |s.threads|);
    WakeClient(s.clients[c], c, s.threads);
    WakePool(s.pool, s.threads, s.clients, c);
    KeepInv(s, After(s, WakeDispatcher(c)), c, |s.threads| + 1);
  }

  lemma {:induction false} WakeClient(cl: Client, c: nat, ts: seq<Thread>)
    requires ClientOk(cl, c, ts) && cl.d == Sleeping
    ensures ClientOk(cl.(d := Next), c, ts) && cl.next < |cl.prog|
  {
    hide OutOk, QueueOk, StatusOk, HandlerOk, CountOk, OrderOk;
    NothingSame(c, ts);
    DispatcherMoves(cl, Next, c, ts, ts);
  }

  lemma {:induction false} WakePool(p: Pool, ts: seq<Thread>, cs: seq<Client>, c: nat)
    requires PoolOk(p, ts, cs) && c < |cs| && cs[c].d == Sleeping && cs[c].next < |cs[c].prog|
    ensures PoolOk(p.(ready := p.ready + {c}), ts, cs[c := cs[c].(d := Next)])
    ensures |p.ready + {c}| == |p.ready| + 1
  {
    hide HeadOk, AliveOk, SetsOk, SleepersOk;
    var p2 := p.(ready := p.ready + {c});
    SameHead(p, p2, ts);
    WakeSets(p, cs, c);
    WakeSleepers(p, p2, cs, c);
  }

  lemma {:induction false} WakeSets(p: Pool, cs: seq<Client>, c: nat)
    requires SetsOk(p, cs) && c < |cs| && cs[c].d == Sleeping && cs[c].next < |cs[c].prog|
    ensures SetsOk(p.(ready := p.ready + {c}), cs[c := cs[c].(d := Next)]) && |p.ready + {c}| == |p.ready| + 1
  {
    assert c !in p.ready;
  }

  lemma {:induction false} WakeSleepers(p: Pool, p2: Pool, cs: seq<Client>, c: nat)
    requires SleepersOk(p, cs) && c < |cs| && cs[c].d == Sleeping
    requires p2.head == p.head && p2.count == p.count && p2.max == p.max && p2.boss == p.boss && |p2.ready| >= |p.ready|
    ensures SleepersOk(p2, cs[c := cs[c].(d := Next)])
  {
  }

  lemma {:induction false} WakeHandlerKeeps(s: State, c: nat)
    requires Inv(s) && Enabled(s, WakeHandler(c))
    ensures Inv(After(s, WakeHandler(c)))
  {
    hide ClientOk, PoolOk, Inv, ThreadOk;
    var cl := s.clients[c];
    InvParts(s, c, |s.threads|);
    WakeHand(cl, c, s.threads);
    PoolFrame(s.pool, s.threads, s.threads, s.clients, After(s, WakeHandler(c)).clients);
    KeepInv(s, After(s, WakeHandler(c)), c, |s.threads| + 1);
  }

  lemma {:induction false} WakeHand(cl: Client, c: nat, ts: seq<Thread>)
    requires ClientOk(cl, c, ts) && (cl.h == Idle || cl.h.AwaitAsleep?)
    ensures ClientOk(cl.(h := if cl.h == Idle then Look else Await(cl.h.t)), c, ts)
  {
    hide OutOk, QueueOk, StatusOk, DispatcherOk, CountOk, OrderOk;
    NothingSame(c, ts);
    HandlerMoves(cl, if cl.h == Idle then Look else Await(cl.h.t), c, ts, ts);
  }

  lemma {:induction false} BossKeeps(s: State, b: Boss)
    requires Inv(s) && (b == Collecting || b == BossAsleep || b == Destroyed)
    requires forall c: nat :: c < |s.clients| ==> s.clients[c].d == Join || s.clients[c].d == Ended
    requires !s.pool.boss.Joining?
    requires b == BossAsleep ==> s.pool.head == [] && s.pool.count > 0
    requires b == Destroyed ==> s.pool.count == 0
    ensures Inv(s.(pool := s.pool.(boss := b)))
  {
    hide ClientOk, PoolOk, Inv, ThreadOk;
    InvParts(s, |s.clients|, |s.threads|);
    BossPool(s.pool, s.threads, s.clients, b);
    KeepInv(s, s.(pool := s.pool.(boss := b)), |s.clients|, |s.threads| + 1);
  }

  lemma {:induction false} BossPool(p: Pool, ts: seq<Thread>, cs: seq<Client>, b: Boss)
    requires PoolOk(p, ts, cs) && (b == Collecting || b == BossAsleep || b == Destroyed) && !p.boss.Joining?
    requires forall c: nat :: c < |cs| ==> cs[c].d == Join || cs[c].d == Ended
    requires b == BossAsleep ==> p.head == [] && p.count > 0
    requires b == Destroyed ==> p.count == 0
    ensures PoolOk(p.(boss := b), ts, cs)
  {
  }

  lemma BossFacts(s: State)
    requires Inv(s) && s.pool.boss != NotYet
    ensures forall c: nat :: c < |s.clients| ==> s.clients[c].d == Join || s.clients[c].d == Ended
  {
    hide ClientOk, ThreadOk, HeadOk, AliveOk, SetsOk;
  }

  lemma {:induction false} WakeBossKeeps(s: State)
    requires Inv(s) && Enabled(s, WakeBoss)
    ensures Inv(After(s, WakeBoss))
  {
    hide Inv;
    BossFacts(s);
    BossKeeps(s, Collecting);
  }

  // ---------- a thread goes back ----------

  /** The return itself, after whoever it wakes has been woken. */
  function PutBack(s: State, c: nat): State
    requires c < |s.clients| && s.clients[c].h.Return? && s.clients[c].h.t < |s.threads|
  {
    var cl := s.clients[c];
    State(s.threads[cl.h.t := s.threads[cl.h.t].(place := InPool)],
          s.clients[c := cl.(h := Call(cl.h.id))],
          s.pool.(head := [cl.h.t] + s.pool.head))
  }

  /** There is no sleeper, or one more dispatcher awake than there are threads to take. */
  ghost predicate Slack(s: State) {
    && s.pool.boss != BossAsleep && s.pool.boss != Destroyed
    && forall c: nat :: c < |s.clients| && s.clients[c].d == Sleeping ==> |s.pool.head| + 1 <= |s.pool.ready|
  }

  lemma {:induction false} PutBackKeeps(s: State, c: nat)
    requires Inv(s) && Slack(s) && c < |s.clients| && s.clients[c].h.Return? && s.clients[c].h.t < |s.threads|
    ensures Inv(PutBack(s, c))
  {
    hide ClientOk, PoolOk, Inv, ThreadOk;
    var cl := s.clients[c];
    InvParts(s, c, cl.h.t);
    BackFacts(cl, c, s.threads);
    BackThread(s.threads[cl.h.t], c);
    PutBackClient(cl, c, s.threads);
    PutBackPool(s, c);
    KeepInv(s, PutBack(s, c), c, cl.h.t);
  }

  lemma BackFacts(cl: Client, c: nat, ts: seq<Thread>)
    requires ClientOk(cl, c, ts) && cl.h.Return?
    ensures cl.h.t < |ts| && ts[cl.h.t].place == Back(c)
  {
    hide OutOk, QueueOk, StatusOk, DispatcherOk, CountOk, OrderOk;
  }

  lemma BackThread(th: Thread, c: nat)
    requires ThreadOk(th) && th.place == Back(c)
    ensures ThreadOk(th.(place := InPool))
  {
  }

  lemma {:induction false} PutBackClient(cl: Client, c: nat, ts: seq<Thread>)
    requires ClientOk(cl, c, ts) && cl.h.Return? && cl.h.t < |ts| && ts[cl.h.t].place == Back(c)
    ensures ClientOk(cl.(h := Call(cl.h.id)), c, ts[cl.h.t := ts[cl.h.t].(place := InPool)])
  {
    hide OutOk, QueueOk, StatusOk, DispatcherOk, CountOk, OrderOk;
    HandlerMoves(cl, Call(cl.h.id), c, ts, ts[cl.h.t := ts[cl.h.t].(place := InPool)]);
  }

  lemma {:induction false} PutBackPool(s: State, c: nat)
    requires PoolOk(s.pool, s.threads, s.clients) && Slack(s) && c < |s.clients| && s.clients[c].h.Return?
    requires s.clients[c].h.t < |s.threads| && s.threads[s.clients[c].h.t].place == Back(c)
    ensures PoolOk(PutBack(s, c).pool, PutBack(s, c).threads, PutBack(s, c).clients)
  {
    var s2 := PutBack(s, c);
    PutBackHead(s.pool, s.threads, s.clients[c].h.t, c);
    hide HeadOk, AliveOk;
    forall d: nat | d < |s2.clients| ensures s2.clients[d].d == s.clients[d].d && s2.clients[d].next == s.clients[d].next && s2.clients[d].prog == s.clients[d].prog { }
  }

  lemma {:induction false} PutBackHead(p: Pool, ts: seq<Thread>, t: nat, c: nat)
    requires HeadOk(p, ts) && AliveOk(p, ts) && t < |ts| && ts[t].place == Back(c)
    ensures HeadOk(p.(head := [t] + p.head), ts[t := ts[t].(place := InPool)]) && AliveOk(p.(head := [t] + p.head), ts[t := ts[t].(place := InPool)])
  {
    var h2 := [t] + p.head;
    assert t !in p.head;
    forall u: nat ensures u in h2 <==> u == t || u in p.head { }
  }

  lemma {:induction false} ReturnKeeps(s: State, c: nat, w: Waiter)
    requires Inv(s) && Enabled(s, ReturnThread(c, w))
    ensures Inv(ThreadReturned(s, c, w))
  {
    hide ClientOk, PoolOk, Inv, ThreadOk, Slack;
    BossNotDone(s, c);
    var t := s.clients[c].h.t;
    match w {
      case OfClient(d) =>
        WakeDispatcherKeeps(s, d);
        var s1 := After(s, WakeDispatcher(d));
        OneMoreAwake(s, d);
        PutBackKeeps(s1, c);
        assert PutBack(s1, c) == ThreadReturned(s, c, w);
      case OfBoss =>
        WakeBossKeeps(s);
        var s1 := After(s, WakeBoss);
        BossFacts(s);
        NoSleepers(s1);
        PutBackKeeps(s1, c);
        assert PutBack(s1, c) == ThreadReturned(s, c, w);
      case Nobody =>
        NoSleepers(s);
        PutBackKeeps(s, c);
        assert PutBack(s, c) == ThreadReturned(s, c, w);
    }
  }

  lemma NoSleepers(s: State)
    requires s.pool.boss != BossAsleep && s.pool.boss != Destroyed && forall c: nat :: c < |s.clients| ==> s.clients[c].d != Sleeping
    ensures Slack(s)
  {
  }

  /** The pool is not destroyed while a handler still has a thread of it. */
  lemma {:induction false} BossNotDone(s: State, c: nat)
    requires Inv(s) && c < |s.clients| && s.clients[c].h.Return?
    ensures s.pool.boss != Destroyed
  {
    hide ClientOk, ThreadOk, SetsOk, SleepersOk;
    assert ClientOk(s.clients[c], c, s.threads);
    BackFacts(s.clients[c], c, s.threads);
    assert s.clients[c].h.t in s.pool.alive;
  }

  lemma {:induction false} OneMoreAwake(s: State, d: nat)
    requires Inv(s) && Enabled(s, WakeDispatcher(d)) && s.pool.boss != Destroyed
    ensures Slack(After(s, WakeDispatcher(d)))
  {
    hide ClientOk, ThreadOk, HeadOk, AliveOk;
    assert d !in s.pool.ready;
    var s1 := After(s, WakeDispatcher(d));
    assert |s1.pool.ready| == |s.pool.ready| + 1;
    assert s.pool.boss == NotYet;
  }

  // ---------- destroying the pool ----------

  lemma {:induction false} CollectKeeps(s: State, w: Option<nat>)
    requires Inv(s) && Enabled(s, Collect(w))
    ensures Inv(Collected(s, w))
    ensures s.pool.count > 0 && |s.pool.head| > 0 ==> s.threads[s.pool.head[0]].job == None
  {
    hide Inv;
    BossFacts(s);
    if s.pool.count == 0 {
      BossKeeps(s, Destroyed);
    } else if |s.pool.head| == 0 {
      BossKeeps(s, BossAsleep);
    } else {
      RetireKeeps(s, w);
    }
  }

  lemma {:induction false} RetireKeeps(s: State, w: Option<nat>)
    requires Inv(s) && Enabled(s, Collect(w)) && s.pool.count > 0 && |s.pool.head| > 0
    ensures Inv(Collected(s, w)) && s.threads[s.pool.head[0]].job == None
  {
    hide ClientOk, PoolOk, Inv, ThreadOk, CanWake;
    var t := s.pool.head[0];
    InvParts(s, |s.clients|, t);
    HeadThread(s);
    NobodyAwaits(s, t, w);
    RetireThread(s.threads[t]);
    RetirePool(s.pool, s.threads, s.clients, Collected(s, w).threads[t]);
    KeepInv(s, Collected(s, w), |s.clients|, t);
  }

  lemma RetireThread(th: Thread)
    requires ThreadOk(th) && th.place == InPool
    ensures th.job == None && ThreadOk(WokenThread(th.(running := true, place := Retiring), None))
    ensures WokenThread(th.(running := true, place := Retiring), None).place == Retiring
  {
  }

  lemma {:induction false} RetirePool(p: Pool, ts: seq<Thread>, cs: seq<Client>, th: Thread)
    requires PoolOk(p, ts, cs) && p.boss == Collecting && p.count > 0 && |p.head| > 0 && th.place == Retiring
    ensures p.head[0] < |ts| && PoolOk(p.(head := p.head[1..], boss := Joining(p.head[0])), ts[p.head[0] := th], cs)
  {
    assert p.head == [p.head[0]] + p.head[1..];
  }

  lemma {:induction false} JoinThreadKeeps(s: State)
    requires Inv(s) && Enabled(s, JoinThread)
    ensures Inv(ThreadJoined(s))
  {
    hide ClientOk, PoolOk, Inv, ThreadOk;
    var t := s.pool.boss.t;
    InvParts(s, |s.clients|, t);
    JoinPool(s.pool, s.threads, s.clients);
    JoinedThread(s.threads[t]);
    KeepInv(s, ThreadJoined(s), |s.clients|, t);
  }

  lemma JoinedThread(th: Thread)
    requires th.pc == Exited
    ensures ThreadOk(th.(place := Gone))
  {
  }

  lemma {:induction false} JoinPool(p: Pool, ts: seq<Thread>, cs: seq<Client>)
    requires PoolOk(p, ts, cs) && p.boss.Joining? && p.boss.t < |ts|
    ensures ts[p.boss.t].place == Retiring
    ensures PoolOk(p.(boss := Collecting, count := if p.count > 0 then p.count - 1 else 0, alive := p.alive - {p.boss.t}),
                   ts[p.boss.t := ts[p.boss.t].(place := Gone)], cs)
  {
    assert p.boss.t in p.alive;
    assert |p.alive - {p.boss.t}| == |p.alive| - 1;
  }

  // ---------- every step, every run ----------

  lemma {:induction false} StepKeepsInv(s: State, l: Label)
    requires Inv(s) && Enabled(s, l)
    ensures Inv(After(s, l))
  {
    hide Inv;
    match l
    case TakeThread(c) => TakeThreadKeeps(s, c);
    case Grow(c) => GrowKeeps(s, c);
    case WaitForThread(c) => WaitForThreadKeeps(s, c);
    case Create(c) => CreateKeeps(s, c);
    case AssignJob(c, w) => AssignKeeps(s, c, w);
    case AnnounceJob(c) => AnnounceKeeps(s, c);
    case Finish(c) => FinishKeeps(s, c);
    case JoinHandler(c) => JoinHandlerKeeps(s, c);
    case CheckRunning(t) => CheckRunningKeeps(s, t);
    case RunJob(t) => RunJobKeeps(s, t);
    case StopRunning(t, w) => StopRunningKeeps(s, t, w);
    case JoinQueue(t) => JoinQueueKeeps(s, t);
    case LookInQueue(c) => LookKeeps(s, c);
    case AwaitResult(c) => AwaitKeeps(s, c);
    case ReturnThread(c, w) => ReturnKeeps(s, c, w);
    case Callback(c) => CallbackKeeps(s, c);
    case StartDestroy => BossKeeps(s, Collecting);
    case Collect(w) => CollectKeeps(s, w);
    case JoinThread => JoinThreadKeeps(s);
    case WakeWorker(t) => WakeWorkerKeeps(s, t);
    case WakeDispatcher(c) => WakeDispatcherKeeps(s, c);
    case WakeHandler(c) => WakeHandlerKeeps(s, c);
    case WakeBoss => WakeBossKeeps(s);
  }

  lemma {:induction false} InitialInv(progs: seq<seq<bool>>, max: nat)
    requires 0 < max < TWO64
    ensures Inv(Initial(progs, max))
  {
    hide ClientOk, PoolOk;
    var s := Initial(progs, max);
    forall c: nat | c < |s.clients| ensures ClientOk(s.clients[c], c, s.threads) { NewClientOk(progs[c], c); }
    InitialPool(progs, max);
  }

  lemma {:induction false} NewClientOk(prog: seq<bool>, c: nat)
    ensures ClientOk(NewClient(prog), c, [])
  {
  }

  lemma {:induction false} InitialPool(progs: seq<seq<bool>>, max: nat)
    requires 0 < max < TWO64
    ensures PoolOk(Initial(progs, max).pool, [], Initial(progs, max).clients)
  {
  }

  lemma {:induction false} RunKeepsInv(s: State, ls: seq<Label>, s2: State)
    requires Inv(s) && IsRun(s, ls, s2)
    ensures Inv(s2)
    decreases |ls|
  {
    hide Inv, Enabled;
    if |ls| > 0 {
      StepKeepsInv(s, ls[0]);
      RunKeepsInv(After(s, ls[0]), ls[1..], s2);
    }
  }
}