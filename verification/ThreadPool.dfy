/** The thread pool (mtbl/threadpool.c) as a state machine.

    One step is what a thread does between taking and releasing a lock, or a
    stretch of accesses no other thread looks at.  Several clients share one
    pool; each has a thread that dispatches jobs and a result-handler thread.
    A condition wait is a state of its own (`Asleep`, `Idle`, `AwaitAsleep`,
    `BossAsleep`) that only a signal, or a spurious wakeup, ends.

    Fields marked "history" are not in the program; they record what the
    properties speak of. */
module ThreadPool {
  import opened Maybe

  const TWO64 := 0x1_0000_0000_0000_0000

  // ---------- worker threads ----------

  datatype WorkerPc =
    | Top                       // about to look at `running`
    | Asleep                    // waiting on its own condition
    | Work                      // running the callback
    | Done(rq: Option<nat>)     // callback finished; rq is the queue to join, if any
    | Enqueue(c: nat)           // about to append itself to a result queue
    | Exited

  /** History: where a thread is. */
  datatype Place =
    | InPool
    | Taken(c: nat)                          // a dispatcher has it and has not given it a job
    | Out(c: nat, id: nat, ordered: bool)    // has a job its result handler has not picked up
    | Held(c: nat, id: nat, ordered: bool)   // the result handler is waiting for its result
    | Back(c: nat)                           // the result handler is returning it
    | Retiring
    | Gone

  datatype Thread = Thread(pc: WorkerPc, running: bool, job: Option<nat>, res: Option<nat>, rq: Option<nat>, place: Place)

  // ---------- clients: a dispatching thread, a result queue and its handler ----------

  datatype Dispatcher =
    | Next                      // between calls, or looking for a thread
    | Sleeping                  // waiting for a thread to be returned
    | Make                      // creating a thread
    | Assign(t: nat)
    | Announce(t: nat, id: nat) // job handed over, queue not yet told
    | Join                      // waiting for the handler to exit
    | Ended

  datatype Handler =
    | Look
    | Idle                      // waiting on the queue's condition
    | Await(t: nat)
    | AwaitAsleep(t: nat)       // waiting on the thread's condition
    | Return(t: nat, id: nat)
    | Call(id: nat)
    | Quit

  /** History: what has become of a dispatched job. */
  datatype Status = On(t: nat) | InHand | Delivered

  /** The jobs are numbered in dispatch order; `prog[i]` says whether job i is ordered. */
  datatype Client = Client(
    prog: seq<bool>, next: nat, d: Dispatcher,
    queue: seq<nat>, nthreads: nat, finished: bool, h: Handler,
    out: set<nat>, status: seq<Status>, delivered: seq<nat>)  // history

  // ---------- the pool ----------

  datatype Boss = NotYet | Collecting | BossAsleep | Joining(t: nat) | Destroyed

  datatype Pool = Pool(
    head: seq<nat>, count: nat, max: nat, boss: Boss,
    alive: set<nat>, making: set<nat>, ready: set<nat>)  // history

  datatype State = State(threads: seq<Thread>, clients: seq<Client>, pool: Pool)

  function NewThread(place: Place): Thread { Thread(Top, false, None, None, None, place) }

  function NewClient(prog: seq<bool>): Client { Client(prog, 0, Next, [], 0, false, Look, {}, [], []) }

  function Initial(progs: seq<seq<bool>>, max: nat): State {
    State([],
          seq(|progs|, i requires 0 <= i < |progs| => NewClient(progs[i])),
          Pool([], 0, max, NotYet, {}, {}, set c: nat | 0 <= c < |progs| && |progs[c]| > 0))
  }

  // ---------- signals ----------

  /** Signalling a thread's condition wakes some one waiter: a handler, or the worker itself. */
  predicate CanWake(s: State, t: nat, w: Option<nat>)
    requires t < |s.threads|
  {
    match w
    case Some(c) => c < |s.clients| && s.clients[c].h == AwaitAsleep(t)
    case None => s.threads[t].pc == Asleep || forall c :: 0 <= c < |s.clients| ==> s.clients[c].h != AwaitAsleep(t)
  }

  function WokenThread(th: Thread, w: Option<nat>): Thread {
    if w == None && th.pc == Asleep then th.(pc := Top) else th
  }

  function WokenClients(cs: seq<Client>, t: nat, w: Option<nat>): (r: seq<Client>)
    requires w.Some? ==> w.value < |cs|
    ensures |r| == |cs|
  {
    if w.Some? then cs[w.value := cs[w.value].(h := Await(t))] else cs
  }

  function WokenHandler(cl: Client): Client { if cl.h == Idle then cl.(h := Look) else cl }

  datatype Waiter = OfClient(c: nat) | OfBoss | Nobody

  /** Signalling the pool's condition wakes some one waiter, if there is any. */
  predicate CanWakePool(s: State, w: Waiter) {
    match w
    case OfClient(c) => c < |s.clients| && s.clients[c].d == Sleeping
    case OfBoss => s.pool.boss == BossAsleep
    case Nobody => s.pool.boss != BossAsleep && forall c :: 0 <= c < |s.clients| ==> s.clients[c].d != Sleeping
  }

  // ---------- the steps ----------

  datatype Label =
    | TakeThread(c: nat) | Grow(c: nat) | WaitForThread(c: nat) | Create(c: nat)
    | AssignJob(c: nat, wake: Option<nat>) | AnnounceJob(c: nat) | Finish(c: nat) | JoinHandler(c: nat)
    | CheckRunning(t: nat) | RunJob(t: nat) | StopRunning(t: nat, wake: Option<nat>) | JoinQueue(t: nat)
    | LookInQueue(c: nat) | AwaitResult(c: nat) | ReturnThread(c: nat, waiter: Waiter) | Callback(c: nat)
    | StartDestroy | Collect(wake: Option<nat>) | JoinThread
    | WakeWorker(t: nat) | WakeDispatcher(c: nat) | WakeHandler(c: nat) | WakeBoss   // spurious

  predicate Spurious(l: Label) { l.WakeWorker? || l.WakeDispatcher? || l.WakeHandler? || l.WakeBoss? }

  /** The destroying thread keeps the pool's lock while it joins a worker. */
  predicate PoolFree(s: State) { !s.pool.boss.Joining? }

  predicate Dispatching(s: State, c: nat) {
    c < |s.clients| && s.clients[c].d == Next && s.clients[c].next < |s.clients[c].prog|
  }

  predicate Enabled(s: State, l: Label) {
    var n, m := |s.threads|, |s.clients|;
    match l
    case TakeThread(c) => PoolFree(s) && Dispatching(s, c) && |s.pool.head| > 0 && s.pool.head[0] < n
    case Grow(c) => PoolFree(s) && Dispatching(s, c) && |s.pool.head| == 0 && s.pool.count != s.pool.max
    case WaitForThread(c) => PoolFree(s) && Dispatching(s, c) && |s.pool.head| == 0 && s.pool.count == s.pool.max
    case Create(c) => c < m && s.clients[c].d == Make
    case AssignJob(c, w) => c < m && s.clients[c].d.Assign? && s.clients[c].d.t < n && CanWake(s, s.clients[c].d.t, w)
    case AnnounceJob(c) => c < m && s.clients[c].d.Announce? && s.clients[c].d.id < |s.clients[c].prog|
    case Finish(c) => c < m && s.clients[c].d == Next && s.clients[c].next == |s.clients[c].prog|
    case JoinHandler(c) => c < m && s.clients[c].d == Join && s.clients[c].h == Quit
    case CheckRunning(t) => t < n && s.threads[t].pc == Top
    case RunJob(t) => t < n && s.threads[t].pc == Work
    case StopRunning(t, w) => t < n && s.threads[t].pc.Done? && CanWake(s, t, w)
    case JoinQueue(t) => t < n && s.threads[t].pc.Enqueue? && s.threads[t].pc.c < m
    case LookInQueue(c) => c < m && s.clients[c].h == Look && (|s.clients[c].queue| > 0 ==> s.clients[c].queue[0] < n)
    case AwaitResult(c) => c < m && s.clients[c].h.Await? && s.clients[c].h.t < n
    case ReturnThread(c, w) => PoolFree(s) && c < m && s.clients[c].h.Return? && s.clients[c].h.t < n && CanWakePool(s, w)
    case Callback(c) => c < m && s.clients[c].h.Call?
    case StartDestroy => s.pool.boss == NotYet && forall c :: 0 <= c < m ==> s.clients[c].d == Join || s.clients[c].d == Ended
    case Collect(w) =>
      s.pool.boss == Collecting
      && (s.pool.count > 0 && |s.pool.head| > 0 ==> s.pool.head[0] < n && CanWake(s, s.pool.head[0], w))
    case JoinThread => s.pool.boss.Joining? && s.pool.boss.t < n && s.threads[s.pool.boss.t].pc == Exited
    case WakeWorker(t) => t < n && s.threads[t].pc == Asleep
    case WakeDispatcher(c) => c < m && s.clients[c].d == Sleeping
    case WakeHandler(c) => c < m && (s.clients[c].h == Idle || s.clients[c].h.AwaitAsleep?)
    case WakeBoss => s.pool.boss == BossAsleep
  }

  function TakenThread(s: State, c: nat): State
    requires Enabled(s, TakeThread(c))
  {
    var t := s.pool.head[0];
    State(s.threads[t := s.threads[t].(place := Taken(c))],
          s.clients[c := s.clients[c].(d := Assign(t))],
          s.pool.(head := s.pool.head[1..], ready := s.pool.ready - {c}))
  }

  function Grown(s: State, c: nat): State
    requires Enabled(s, Grow(c))
  {
    s.(clients := s.clients[c := s.clients[c].(d := Make)],
       pool := s.pool.(count := s.pool.count + 1, making := s.pool.making + {c}, ready := s.pool.ready - {c}))
  }

  function WaitingForThread(s: State, c: nat): State
    requires Enabled(s, WaitForThread(c))
  {
    s.(clients := s.clients[c := s.clients[c].(d := Sleeping)], pool := s.pool.(ready := s.pool.ready - {c}))
  }

  function Created(s: State, c: nat): State
    requires Enabled(s, Create(c))
  {
    var t: nat := |s.threads|;
    State(s.threads + [NewThread(Taken(c))],
          s.clients[c := s.clients[c].(d := Assign(t))],
          s.pool.(alive := s.pool.alive + {t}, making := s.pool.making - {c}))
  }

  /** Hands the next job over and signals the thread. */
  function Assigned(s: State, c: nat, w: Option<nat>): State
    requires Enabled(s, AssignJob(c, w))
  {
    var cl := s.clients[c];
    var t, id := cl.d.t, cl.next;
    var ordered := id < |cl.prog| && cl.prog[id];
    var th := s.threads[t].(rq := if ordered then None else Some(c), job := Some(id), running := true, place := Out(c, id, ordered));
    var cl2 := cl.(d := Announce(t, id), next := id + 1, out := cl.out + {t}, status := cl.status + [On(t)]);
    s.(threads := s.threads[t := WokenThread(th, w)],
       clients := WokenClients(s.clients[c := cl2], t, w))
  }

  /** Counts the job and, if it is ordered, puts its thread in the queue at once. */
  function Announced(s: State, c: nat): State
    requires Enabled(s, AnnounceJob(c))
  {
    var cl := s.clients[c];
    var counted := cl.(d := Next, nthreads := if cl.nthreads == TWO64 - 1 then 0 else cl.nthreads + 1);
    var cl2 := if cl.prog[cl.d.id] then WokenHandler(counted.(queue := cl.queue + [cl.d.t])) else counted;
    s.(clients := s.clients[c := cl2],
       pool := s.pool.(ready := if cl2.next < |cl2.prog| then s.pool.ready + {c} else s.pool.ready))
  }

  function Finished(s: State, c: nat): State
    requires Enabled(s, Finish(c))
  {
    s.(clients := s.clients[c := WokenHandler(s.clients[c].(d := Join, finished := true))])
  }

  /** A job of NULL tells the worker to exit. */
  function RunningChecked(s: State, t: nat): State
    requires Enabled(s, CheckRunning(t))
  {
    var th := s.threads[t];
    s.(threads := s.threads[t := th.(pc := if !th.running then Asleep else if th.job == None then Exited else Work)])
  }

  function JobRun(s: State, t: nat): State
    requires Enabled(s, RunJob(t))
  {
    var th := s.threads[t];
    s.(threads := s.threads[t := th.(res := th.job, job := None, rq := None, pc := Done(th.rq))])
  }

  /** An ordered job signals whoever waits for its result; an unordered one still has to queue. */
  function StoppedRunning(s: State, t: nat, w: Option<nat>): State
    requires Enabled(s, StopRunning(t, w))
  {
    var th := s.threads[t];
    match th.pc.rq
    case Some(c) => s.(threads := s.threads[t := th.(running := false, pc := Enqueue(c))])
    case None => s.(threads := s.threads[t := th.(running := false, pc := Top)], clients := WokenClients(s.clients, t, w))
  }

  function QueueJoined(s: State, t: nat): State
    requires Enabled(s, JoinQueue(t))
  {
    var th := s.threads[t];
    var c := th.pc.c;
    s.(threads := s.threads[t := th.(pc := Top)],
       clients := s.clients[c := WokenHandler(s.clients[c].(queue := s.clients[c].queue + [t]))])
  }

  function QueueLookedIn(s: State, c: nat): State
    requires Enabled(s, LookInQueue(c))
  {
    var cl := s.clients[c];
    if |cl.queue| > 0 then
      var t := cl.queue[0];
      var th := s.threads[t];
      var held := if th.place.Out? then Held(c, th.place.id, th.place.ordered) else th.place;
      s.(threads := s.threads[t := th.(place := held)],
         clients := s.clients[c := cl.(queue := cl.queue[1..], nthreads := if cl.nthreads == 0 then TWO64 - 1 else cl.nthreads - 1,
                                       h := Await(t), out := cl.out - {t})])
    else if cl.finished && cl.nthreads == 0 then s.(clients := s.clients[c := cl.(h := Quit)])
    else s.(clients := s.clients[c := cl.(h := Idle)])
  }

  function ResultAwaited(s: State, c: nat): State
    requires Enabled(s, AwaitResult(c))
  {
    var cl := s.clients[c];
    var t := cl.h.t;
    var th := s.threads[t];
    if th.running then s.(clients := s.clients[c := cl.(h := AwaitAsleep(t))])
    else
      var id := if th.res.Some? then th.res.value else 0;
      s.(threads := s.threads[t := th.(res := None, place := Back(c))],
         clients := s.clients[c := cl.(h := Return(t, id), status := if id < |cl.status| then cl.status[id := InHand] else cl.status)])
  }

  function WokenDispatcher(cs: seq<Client>, w: Waiter): (r: seq<Client>)
    requires w.OfClient? ==> w.c < |cs|
    ensures |r| == |cs|
  {
    if w.OfClient? then cs[w.c := cs[w.c].(d := Next)] else cs
  }

  function ThreadReturned(s: State, c: nat, w: Waiter): State
    requires Enabled(s, ReturnThread(c, w))
  {
    var cl := s.clients[c];
    var t := cl.h.t;
    State(s.threads[t := s.threads[t].(place := InPool)],
          WokenDispatcher(s.clients[c := cl.(h := Call(cl.h.id))], w),
          s.pool.(head := [t] + s.pool.head,
                  boss := if w.OfBoss? then Collecting else s.pool.boss,
                  ready := if w.OfClient? then s.pool.ready + {w.c} else s.pool.ready))
  }

  function CalledBack(s: State, c: nat): State
    requires Enabled(s, Callback(c))
  {
    var cl := s.clients[c];
    var id := cl.h.id;
    s.(clients := s.clients[c := cl.(h := Look, delivered := cl.delivered + [id],
                                     status := if id < |cl.status| then cl.status[id := Delivered] else cl.status)])
  }

  function Collected(s: State, w: Option<nat>): State
    requires Enabled(s, Collect(w))
  {
    if s.pool.count == 0 then s.(pool := s.pool.(boss := Destroyed))
    else if |s.pool.head| == 0 then s.(pool := s.pool.(boss := BossAsleep))
    else
      var t := s.pool.head[0];
      State(s.threads[t := WokenThread(s.threads[t].(running := true, place := Retiring), w)],
            WokenClients(s.clients, t, w),
            s.pool.(head := s.pool.head[1..], boss := Joining(t)))
  }

  function ThreadJoined(s: State): State
    requires Enabled(s, JoinThread)
  {
    var t := s.pool.boss.t;
    State(s.threads[t := s.threads[t].(place := Gone)], s.clients,
          s.pool.(boss := Collecting, count := if s.pool.count > 0 then s.pool.count - 1 else 0, alive := s.pool.alive - {t}))
  }

  function After(s: State, l: Label): State
    requires Enabled(s, l)
  {
    match l
    case TakeThread(c) => TakenThread(s, c)
    case Grow(c) => Grown(s, c)
    case WaitForThread(c) => WaitingForThread(s, c)
    case Create(c) => Created(s, c)
    case AssignJob(c, w) => Assigned(s, c, w)
    case AnnounceJob(c) => Announced(s, c)
    case Finish(c) => Finished(s, c)
    case JoinHandler(c) => s.(clients := s.clients[c := s.clients[c].(d := Ended)])
    case CheckRunning(t) => RunningChecked(s, t)
    case RunJob(t) => JobRun(s, t)
    case StopRunning(t, w) => StoppedRunning(s, t, w)
    case JoinQueue(t) => QueueJoined(s, t)
    case LookInQueue(c) => QueueLookedIn(s, c)
    case AwaitResult(c) => ResultAwaited(s, c)
    case ReturnThread(c, w) => ThreadReturned(s, c, w)
    case Callback(c) => CalledBack(s, c)
    case StartDestroy => s.(pool := s.pool.(boss := Collecting))
    case Collect(w) => Collected(s, w)
    case JoinThread => ThreadJoined(s)
    case WakeWorker(t) => s.(threads := s.threads[t := s.threads[t].(pc := Top)])
    case WakeDispatcher(c) =>
      s.(clients := s.clients[c := s.clients[c].(d := Next)],
         pool := s.pool.(ready := s.pool.ready + {c}))
    case WakeHandler(c) =>
      s.(clients := s.clients[c := s.clients[c].(h := if s.clients[c].h == Idle then Look else Await(s.clients[c].h.t))])
    case WakeBoss => s.(pool := s.pool.(boss := Collecting))
  }

  /** States some run reaches from the start. */
  ghost predicate IsRun(from: State, ls: seq<Label>, to: State)
    decreases |ls|
  {
    if |ls| == 0 then to == from
    else Enabled(from, ls[0]) && IsRun(After(from, ls[0]), ls[1..], to)
  }
}
