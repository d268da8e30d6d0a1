/** What every step of the thread pool keeps. */
module ThreadPoolInv {
  import opened Maybe
  import opened ThreadPool

  // ---------- one worker thread ----------

  predicate Waiting(th: Thread) { !th.running && (th.pc == Top || th.pc == Asleep) }

  predicate Unassigned(th: Thread) { Waiting(th) && th.job == None && th.res == None && th.rq == None }

  /** The stages of a job: waiting to run or running; finished; about to queue; result ready. */
  predicate Carries(th: Thread, c: nat, id: nat, ordered: bool) {
    var rq := if ordered then None else Some(c);
    || (th.running && th.job == Some(id) && th.res == None && th.rq == rq && (th.pc == Top || th.pc == Work))
    || (th.running && th.job == None && th.res == Some(id) && th.rq == None && th.pc == Done(rq))
    || (!ordered && !th.running && th.job == None && th.res == Some(id) && th.rq == None && th.pc == Enqueue(c))
    || (Waiting(th) && th.job == None && th.res == Some(id) && th.rq == None)
  }

  predicate ThreadOk(th: Thread) {
    match th.place
    case InPool => Unassigned(th)
    case Taken(_) => Unassigned(th)
    case Out(c, id, o) => Carries(th, c, id, o)
    case Held(c, id, o) => Carries(th, c, id, o) && (!o ==> Waiting(th))
    case Back(_) => Unassigned(th)
    case Retiring => th.running && th.job == None && (th.pc == Top || th.pc == Exited)
    case Gone => th.pc == Exited
  }

  /** The client that has the thread. */
  function Owner(p: Place): Option<nat> {
    match p
    case Taken(c) => Some(c)
    case Out(c, _, _) => Some(c)
    case Held(c, _, _) => Some(c)
    case Back(c) => Some(c)
    case _ => None
  }

  // ---------- one client and its threads ----------

  predicate IsOut(c: nat, th: Thread) { th.place.Out? && th.place.c == c }
  predicate IsHeld(c: nat, th: Thread) { th.place.Held? && th.place.c == c }

  ghost predicate OutOk(cl: Client, c: nat, ts: seq<Thread>) {
    && (forall t <- cl.out :: t < |ts|)
    && (forall t: nat :: t < |ts| ==> (t in cl.out <==> IsOut(c, ts[t])))
  }

  /** An ordered job is queued once announced, an unordered one once it has finished. */
  predicate ShouldQueue(cl: Client, th: Thread)
    requires th.place.Out?
  {
    if th.place.ordered then !(cl.d.Announce? && cl.d.id == th.place.id) else Waiting(th)
  }

  ghost predicate QueueOk(cl: Client, c: nat, ts: seq<Thread>) {
    && (forall p :: 0 <= p < |cl.queue| ==> cl.queue[p] < |ts| && IsOut(c, ts[cl.queue[p]]))
    && (forall p, q :: 0 <= p < q < |cl.queue| ==> cl.queue[p] != cl.queue[q])
    && (forall t: nat :: t < |ts| && IsOut(c, ts[t]) ==> (t in cl.queue <==> ShouldQueue(cl, ts[t])))
  }

  predicate HasJob(p: Place, c: nat, id: nat, ordered: bool) { p == Out(c, id, ordered) || p == Held(c, id, ordered) }

  predicate InHandOf(h: Handler, id: nat) { (h.Return? || h.Call?) && h.id == id }

  /** Each dispatched job is on exactly one thread, in the handler's hand, or delivered. */
  ghost predicate StatusOk(cl: Client, c: nat, ts: seq<Thread>) {
    && cl.next <= |cl.prog| && |cl.status| == cl.next
    && (forall i :: 0 <= i < cl.next ==>
          (cl.status[i].On? ==> cl.status[i].t < |ts| && HasJob(ts[cl.status[i].t].place, c, i, cl.prog[i])))
    && (forall i :: 0 <= i < cl.next ==> (cl.status[i] == InHand <==> InHandOf(cl.h, i)))
    && (forall i :: 0 <= i < cl.next ==> (cl.status[i] == Delivered <==> i in cl.delivered))
    && (forall i <- cl.delivered :: i < cl.next)
    && (forall p, q :: 0 <= p < q < |cl.delivered| ==> cl.delivered[p] != cl.delivered[q])
    && (cl.h.Return? || cl.h.Call? ==> cl.h.id < cl.next)
    && (forall t: nat :: t < |ts| && (IsOut(c, ts[t]) || IsHeld(c, ts[t])) ==>
          ts[t].place.id < cl.next && cl.status[ts[t].place.id] == On(t) && ts[t].place.ordered == cl.prog[ts[t].place.id])
  }

  ghost predicate HandlerOk(cl: Client, c: nat, ts: seq<Thread>) {
    && (cl.h.Await? || cl.h.AwaitAsleep? ==> cl.h.t < |ts| && IsHeld(c, ts[cl.h.t]))
    && (cl.h.AwaitAsleep? ==> ts[cl.h.t].running)
    && (cl.h.Return? ==> cl.h.t < |ts| && ts[cl.h.t].place == Back(c))
    && (forall t: nat :: t < |ts| && IsHeld(c, ts[t]) ==> (cl.h == Await(t) || cl.h == AwaitAsleep(t)))
    && (forall t: nat :: t < |ts| && ts[t].place == Back(c) ==> cl.h.Return? && cl.h.t == t)
    && (cl.h == Idle ==> cl.queue == [] && !(cl.finished && cl.nthreads == 0))
    && (cl.h == Quit ==> cl.finished && cl.out == {} && cl.queue == [])
  }

  ghost predicate DispatcherOk(cl: Client, c: nat, ts: seq<Thread>) {
    && (cl.d.Assign? ==> cl.d.t < |ts| && ts[cl.d.t].place == Taken(c))
    && (forall t: nat :: t < |ts| && ts[t].place == Taken(c) ==> cl.d == Assign(t))
    && (cl.d.Announce? ==> cl.d.id == cl.next - 1 && cl.next <= |cl.prog|)
    && (cl.d.Announce? && cl.prog[cl.d.id] ==> cl.d.t < |ts| && ts[cl.d.t].place == Out(c, cl.d.id, true))
    && (cl.d == Sleeping || cl.d == Make || cl.d.Assign? ==> cl.next < |cl.prog|)
    && (cl.finished <==> cl.d == Join || cl.d == Ended)
    && (cl.finished ==> cl.next == |cl.prog|)
    && (cl.d == Ended ==> cl.h == Quit)
  }

  /** Threads out, not counting the one that has not been announced, modulo 2^64. */
  predicate CountOk(cl: Client) {
    cl.nthreads == if cl.d.Announce? then (if |cl.out| == 0 then TWO64 - 1 else |cl.out| - 1) else |cl.out|
  }

  /** A job the handler has picked up. */
  predicate PickedUp(cl: Client, id: nat, ts: seq<Thread>) {
    id in cl.delivered || InHandOf(cl.h, id)
    || ((cl.h.Await? || cl.h.AwaitAsleep?) && cl.h.t < |ts| && ts[cl.h.t].place.Held? && ts[cl.h.t].place.id == id)
  }

  predicate IsOrdered(cl: Client, id: nat) { id < |cl.prog| && cl.prog[id] }

  function JobOf(th: Thread): nat { if th.place.Out? then th.place.id else 0 }

  /** Ordered jobs queue, are picked up and are delivered in dispatch order. */
  ghost predicate OrderOk(cl: Client, ts: seq<Thread>) {
    && (forall p :: 0 <= p < |cl.queue| ==> cl.queue[p] < |ts|)
    && (forall p, q :: 0 <= p < q < |cl.queue| && IsOrdered(cl, JobOf(ts[cl.queue[p]])) && IsOrdered(cl, JobOf(ts[cl.queue[q]])) ==>
          JobOf(ts[cl.queue[p]]) < JobOf(ts[cl.queue[q]]))
    && (forall p, i: nat :: 0 <= p < |cl.queue| && IsOrdered(cl, JobOf(ts[cl.queue[p]])) && IsOrdered(cl, i) && PickedUp(cl, i, ts) ==>
          i < JobOf(ts[cl.queue[p]]))
    && (forall p, q :: 0 <= p < q < |cl.delivered| && IsOrdered(cl, cl.delivered[p]) && IsOrdered(cl, cl.delivered[q]) ==>
          cl.delivered[p] < cl.delivered[q])
    && (forall i, j: nat :: i in cl.delivered && IsOrdered(cl, i) && IsOrdered(cl, j) && PickedUp(cl, j, ts) && j !in cl.delivered ==> i < j)
  }

  ghost predicate ClientOk(cl: Client, c: nat, ts: seq<Thread>) {
    && OutOk(cl, c, ts) && QueueOk(cl, c, ts) && StatusOk(cl, c, ts) && HandlerOk(cl, c, ts)
    && DispatcherOk(cl, c, ts) && CountOk(cl) && OrderOk(cl, ts)
  }

  // ---------- the pool ----------

  ghost predicate HeadOk(p: Pool, ts: seq<Thread>) {
    && (forall i :: 0 <= i < |p.head| ==> p.head[i] < |ts|)
    && (forall i, j :: 0 <= i < j < |p.head| ==> p.head[i] != p.head[j])
    && (forall t: nat :: t < |ts| ==> (t in p.head <==> ts[t].place == InPool))
  }

  ghost predicate AliveOk(p: Pool, ts: seq<Thread>) {
    && (forall t <- p.alive :: t < |ts|)
    && (forall t: nat :: t < |ts| ==> (t in p.alive <==> ts[t].place != Gone))
    && (p.boss == NotYet ==> |p.alive| == |ts|)
    && (forall t: nat :: t < |ts| && ts[t].place == Retiring ==> p.boss == Joining(t))
    && (p.boss.Joining? ==> p.boss.t < |ts| && ts[p.boss.t].place == Retiring)
  }

  ghost predicate SetsOk(p: Pool, cs: seq<Client>) {
    && (forall c <- p.making :: c < |cs|)
    && (forall c: nat :: c < |cs| ==> (c in p.making <==> cs[c].d == Make))
    && (forall c <- p.ready :: c < |cs|)
    && (forall c: nat :: c < |cs| ==> (c in p.ready <==> cs[c].d == Next && cs[c].next < |cs[c].prog|))
  }

  /** No dispatcher sleeps beside an available thread unless one that is awake will take it. */
  ghost predicate SleepersOk(p: Pool, cs: seq<Client>) {
    && (forall c: nat :: c < |cs| && cs[c].d == Sleeping ==> |p.head| <= |p.ready| && p.count == p.max)
    && (p.boss != NotYet ==> forall c: nat :: c < |cs| ==> cs[c].d == Join || cs[c].d == Ended)
  }

  ghost predicate PoolOk(p: Pool, ts: seq<Thread>, cs: seq<Client>) {
    && HeadOk(p, ts) && AliveOk(p, ts) && SetsOk(p, cs) && SleepersOk(p, cs)
    && p.count == |p.alive| + |p.making| <= p.max && 0 < p.max < TWO64 && |ts| <= p.max
    && (p.boss == BossAsleep ==> p.head == [] && p.count > 0) && (p.boss == Destroyed ==> p.count == 0)
  }

  ghost predicate Inv(s: State) {
    && (forall t: nat :: t < |s.threads| ==> ThreadOk(s.threads[t]))
    && (forall t: nat :: t < |s.threads| && Owner(s.threads[t].place).Some? ==> Owner(s.threads[t].place).value < |s.clients|)
    && (forall c: nat :: c < |s.clients| ==> ClientOk(s.clients[c], c, s.threads))
    && PoolOk(s.pool, s.threads, s.clients)
  }

  // ---------- frames: what a change elsewhere leaves alone ----------

  predicate SameOut(c: nat, a: Thread, b: Thread) {
    (!IsOut(c, a) && !IsOut(c, b)) || (a.place == b.place && (a.place.ordered || Waiting(a) == Waiting(b)))
  }

  predicate SameHeld(c: nat, a: Thread, b: Thread) {
    (!IsHeld(c, a) && !IsHeld(c, b)) || a.place == b.place
  }

  predicate SameBack(c: nat, a: Thread, b: Thread) { a.place == Back(c) <==> b.place == Back(c) }

  predicate SameTaken(c: nat, a: Thread, b: Thread) { a.place == Taken(c) <==> b.place == Taken(c) }

  /** No change in the places client c knows about, and any new thread belongs to another. */
  ghost predicate OutSame(c: nat, ts: seq<Thread>, ts2: seq<Thread>) {
    && |ts| <= |ts2| && (forall t: nat :: t < |ts| ==> SameOut(c, ts[t], ts2[t]))
    && (forall t: nat :: |ts| <= t < |ts2| ==> !IsOut(c, ts2[t]))
  }

  ghost predicate HeldSame(c: nat, ts: seq<Thread>, ts2: seq<Thread>) {
    && |ts| <= |ts2| && (forall t: nat :: t < |ts| ==> SameHeld(c, ts[t], ts2[t]))
    && (forall t: nat :: |ts| <= t < |ts2| ==> !IsHeld(c, ts2[t]))
  }

  /** Threads the handler may be waiting for are running as before. */
  ghost predicate HeldRunSame(c: nat, ts: seq<Thread>, ts2: seq<Thread>) {
    |ts| <= |ts2| && forall t: nat :: t < |ts| && IsHeld(c, ts[t]) ==> ts2[t].running == ts[t].running
  }

  ghost predicate BackSame(c: nat, ts: seq<Thread>, ts2: seq<Thread>) {
    && |ts| <= |ts2| && (forall t: nat :: t < |ts| ==> SameBack(c, ts[t], ts2[t]))
    && (forall t: nat :: |ts| <= t < |ts2| ==> ts2[t].place != Back(c))
  }

  ghost predicate TakenSame(c: nat, ts: seq<Thread>, ts2: seq<Thread>) {
    && |ts| <= |ts2| && (forall t: nat :: t < |ts| ==> SameTaken(c, ts[t], ts2[t]))
    && (forall t: nat :: |ts| <= t < |ts2| ==> ts2[t].place != Taken(c))
  }

  lemma {:induction false} FrameOut(cl: Client, cl2: Client, c: nat, ts: seq<Thread>, ts2: seq<Thread>)
    requires OutOk(cl, c, ts) && OutSame(c, ts, ts2) && cl2.out == cl.out
    ensures OutOk(cl2, c, ts2)
  {
  }

  predicate SameAnnounce(d: Dispatcher, d2: Dispatcher) { d.Announce? == d2.Announce? && (d.Announce? ==> d == d2) }

  lemma {:induction false} FrameQueue(cl: Client, cl2: Client, c: nat, ts: seq<Thread>, ts2: seq<Thread>)
    requires QueueOk(cl, c, ts) && OutSame(c, ts, ts2)
    requires cl2.queue == cl.queue && SameAnnounce(cl.d, cl2.d)
    ensures QueueOk(cl2, c, ts2)
  {
    forall t: nat | t < |ts2| && IsOut(c, ts2[t]) ensures t < |ts| && ts[t].place == ts2[t].place { assert SameOut(c, ts[t], ts2[t]); }
  }

  predicate SameInHand(h: Handler, h2: Handler) {
    (h.Return? || h.Call?) == (h2.Return? || h2.Call?) && (h.Return? || h.Call? ==> h.id == h2.id)
  }

  lemma {:induction false} FrameStatus(cl: Client, cl2: Client, c: nat, ts: seq<Thread>, ts2: seq<Thread>)
    requires StatusOk(cl, c, ts) && OutSame(c, ts, ts2) && HeldSame(c, ts, ts2)
    requires cl2.prog == cl.prog && cl2.next == cl.next && cl2.status == cl.status && cl2.delivered == cl.delivered
    requires SameInHand(cl.h, cl2.h)
    ensures StatusOk(cl2, c, ts2)
  {
    forall t: nat | t < |ts2| && (IsOut(c, ts2[t]) || IsHeld(c, ts2[t])) ensures t < |ts| && ts[t].place == ts2[t].place { }
  }

  lemma {:induction false} FrameHandler(cl: Client, cl2: Client, c: nat, ts: seq<Thread>, ts2: seq<Thread>)
    requires HandlerOk(cl, c, ts) && HeldSame(c, ts, ts2) && HeldRunSame(c, ts, ts2) && BackSame(c, ts, ts2)
    requires cl2.h == cl.h && cl2.queue == cl.queue && cl2.finished == cl.finished && cl2.nthreads == cl.nthreads && cl2.out == cl.out
    ensures HandlerOk(cl2, c, ts2)
  {
    if cl.h.Await? || cl.h.AwaitAsleep? { assert SameHeld(c, ts[cl.h.t], ts2[cl.h.t]); }
    forall t: nat | t < |ts2| && IsHeld(c, ts2[t]) ensures t < |ts| && ts[t].place == ts2[t].place { }
  }

  lemma {:induction false} FrameDispatcher(cl: Client, cl2: Client, c: nat, ts: seq<Thread>, ts2: seq<Thread>)
    requires DispatcherOk(cl, c, ts) && OutSame(c, ts, ts2) && TakenSame(c, ts, ts2)
    requires cl2.d == cl.d && cl2.next == cl.next && cl2.prog == cl.prog && cl2.finished == cl.finished
    requires cl.h == Quit ==> cl2.h == Quit
    ensures DispatcherOk(cl2, c, ts2)
  {
  }

  lemma {:induction false} FrameOrder(cl: Client, cl2: Client, ts: seq<Thread>, ts2: seq<Thread>)
    requires OrderOk(cl, ts) && |ts| <= |ts2|
    requires cl2.queue == cl.queue && cl2.delivered == cl.delivered && cl2.prog == cl.prog
    requires forall p :: 0 <= p < |cl.queue| ==> JobOf(ts2[cl.queue[p]]) == JobOf(ts[cl.queue[p]])
    requires forall i: nat :: PickedUp(cl2, i, ts2) == PickedUp(cl, i, ts)
    ensures OrderOk(cl2, ts2)
  {
  }

  lemma {:induction false} SameJobs(cl: Client, c: nat, ts: seq<Thread>, ts2: seq<Thread>)
    requires QueueOk(cl, c, ts) && OutSame(c, ts, ts2)
    ensures |ts| <= |ts2|
    ensures forall p :: 0 <= p < |cl.queue| ==> cl.queue[p] < |ts| && JobOf(ts2[cl.queue[p]]) == JobOf(ts[cl.queue[p]])
  {
    forall p | 0 <= p < |cl.queue| ensures cl.queue[p] < |ts| && JobOf(ts2[cl.queue[p]]) == JobOf(ts[cl.queue[p]]) {
      assert SameOut(c, ts[cl.queue[p]], ts2[cl.queue[p]]);
    }
  }

  lemma {:induction false} SamePicked(cl: Client, cl2: Client, c: nat, ts: seq<Thread>, ts2: seq<Thread>)
    requires HandlerOk(cl, c, ts) && HeldSame(c, ts, ts2)
    requires cl2.delivered == cl.delivered
    requires cl2.h == cl.h || (SameInHand(cl.h, cl2.h) && HandThread(cl.h) == HandThread(cl2.h))
    ensures forall i: nat :: PickedUp(cl2, i, ts2) == PickedUp(cl, i, ts)
  {
    if HandThread(cl.h).Some? { assert SameHeld(c, ts[cl.h.t], ts2[cl.h.t]); }
  }

  function HandThread(h: Handler): Option<nat> { if h.Await? || h.AwaitAsleep? then Some(h.t) else None }

  /** As far as client c can see, the thread has not changed. */
  predicate SameFor(c: nat, a: Thread, b: Thread) {
    || (Owner(a.place) != Some(c) && Owner(b.place) != Some(c))
    || (a.place == b.place && Waiting(a) == Waiting(b) && a.running == b.running)
  }

  lemma {:induction false} AllSame(c: nat, ts: seq<Thread>, ts2: seq<Thread>)
    requires |ts| <= |ts2| && forall t: nat :: t < |ts| ==> SameFor(c, ts[t], ts2[t])
    requires forall t: nat :: |ts| <= t < |ts2| ==> Owner(ts2[t].place) != Some(c)
    ensures OutSame(c, ts, ts2) && HeldSame(c, ts, ts2) && HeldRunSame(c, ts, ts2) && BackSame(c, ts, ts2) && TakenSame(c, ts, ts2)
  {
    forall t: nat | t < |ts| && IsHeld(c, ts[t]) ensures ts2[t].running == ts[t].running { assert SameFor(c, ts[t], ts2[t]); }
    forall t: nat | t < |ts|
      ensures SameOut(c, ts[t], ts2[t]) && SameHeld(c, ts[t], ts2[t]) && SameBack(c, ts[t], ts2[t]) && SameTaken(c, ts[t], ts2[t])
    {
      assert SameFor(c, ts[t], ts2[t]);
    }
  }

  lemma {:induction false} ClientFrame(cl: Client, c: nat, ts: seq<Thread>, ts2: seq<Thread>)
    requires ClientOk(cl, c, ts) && |ts| <= |ts2|
    requires forall t: nat :: t < |ts| ==> SameFor(c, ts[t], ts2[t])
    requires forall t: nat :: |ts| <= t < |ts2| ==> Owner(ts2[t].place) != Some(c)
    ensures ClientOk(cl, c, ts2)
  {
    AllSame(c, ts, ts2);
    hide ClientOk, OutSame, HeldSame, HeldRunSame, BackSame, TakenSame;
    FramesKeep(cl, c, ts, ts2);
  }

  lemma {:induction false} FramesKeep(cl: Client, c: nat, ts: seq<Thread>, ts2: seq<Thread>)
    requires ClientOk(cl, c, ts) && OutSame(c, ts, ts2) && HeldSame(c, ts, ts2) && HeldRunSame(c, ts, ts2)
    requires BackSame(c, ts, ts2) && TakenSame(c, ts, ts2)
    ensures ClientOk(cl, c, ts2)
  {
    hide OutOk, QueueOk, StatusOk, HandlerOk, DispatcherOk, OrderOk, OutSame, HeldSame, HeldRunSame, BackSame, TakenSame, PickedUp;
    FrameOut(cl, cl, c, ts, ts2);
    FrameQueue(cl, cl, c, ts, ts2);
    FrameStatus(cl, cl, c, ts, ts2);
    FrameHandler(cl, cl, c, ts, ts2);
    FrameDispatcher(cl, cl, c, ts, ts2);
    SameJobs(cl, c, ts, ts2);
    SamePicked(cl, cl, c, ts, ts2);
    FrameOrder(cl, cl, ts, ts2);
  }
}
