/** The file server's use of the pool: a flag per client says that a worker has it, and
    the main loop counts the flags while workers clear them. */
module FileServer {
  import opened ThreadPool
  import opened Options

  const MAX_FD := 1024
  type Fd = x: int | 0 <= x < MAX_FD

  // A logged-in client is its in_thread flag; a slot without one is a null pointer.
  type Clients = s: seq<Option<bool>> | |s| == MAX_FD witness seq(MAX_FD, _ => None)

  // Where the main thread is in csiebox_server_run and choose_thread.
  datatype MainPc =
    | Counting(i: nat, count: nat)
    | Ready
    | Dispatching(fd: Fd)
    | Refused(fd: Fd)       // run_task returned 0, in_thread not yet taken back

  // ready: the connections this round of the main loop may still hand to a worker, out of
  // those whose flag was down when the scan came to them.
  // cleared[w]: the request worker w runs has already done its check-and-clear.
  datatype Server = Server(main: MainPc, ready: set<Fd>, clients: Clients, active: nat, pool: Pool<Fd>,
                           cleared: seq<bool>)

  datatype Act =
    | Scan                  // one index of the scan, or its end
    | Again                 // the main loop goes round
    | MainLogin(fd: Fd)     // a new connection handled by the main thread itself
    | MainLogout(fd: Fd)
    | Dispatch(fd: Fd)
    | RunTask               // one step of run_task in the main thread
    | TakeBack
    | WorkerLogin(w: nat)
    | WorkerLogout(w: nat)
    | CheckAndClear(w: nat)
    | PoolStep(w: nat)      // one step of task_thread_func

  ghost function NewServer(threadNum: nat): Server {
    Server(Counting(2, 0), {}, seq(MAX_FD, _ => None), 0, NewPool(threadNum, 1), seq(threadNum, _ => false))
  }

  ghost predicate Formed(s: Server) {
    Shaped(s.pool) && |s.cleared| == |s.pool.workers| && |s.pool.callers| == 1
  }

  ghost predicate Handling(s: Server, w: nat) {
    w < |s.pool.workers| && w < |s.cleared| && s.pool.workers[w].pc.Running? && !s.cleared[w]
  }

  // A null client record is dereferenced by Dispatch and TakeBack, and that ends the run.
  ghost predicate Possible(s: Server, a: Act)
    requires Formed(s)
  {
    match a
    case Scan => s.main.Counting?
    case Again => s.main.Ready?
    case MainLogin(_) => s.main.Ready?
    case MainLogout(_) => s.main.Ready?
    case Dispatch(fd) => s.main.Ready? && fd in s.ready && s.clients[fd].Some?
    case RunTask => s.main.Dispatching? && Enabled(s.pool, CallerStep(0))
    case TakeBack => s.main.Refused? && s.clients[s.main.fd].Some?
    case WorkerLogin(w) => Handling(s, w)
    case WorkerLogout(w) => Handling(s, w)
    case CheckAndClear(w) => Handling(s, w)
    case PoolStep(w) => w < |s.pool.workers| && !Handling(s, w)
  }

  ghost function Lower(clients: Clients, fd: Fd): Clients {
    if clients[fd].Some? then clients[fd := Some(false)] else clients
  }

  ghost function Advance(s: Server, a: Act): (s': Server)
    requires Formed(s)
    ensures Formed(s') && |s'.pool.workers| == |s.pool.workers|
  {
    if !Possible(s, a) then s
    else
      match a
      case Scan =>
        var Counting(i, count) := s.main;
        if i < MAX_FD then
          s.(main := Counting(i + 1, if s.clients[i] == Some(true) then count + 1 else count),
             ready := if s.clients[i] == Some(false) then s.ready + {i} else s.ready)
        else s.(main := Ready, active := count)
      case Again => s.(main := Counting(2, 0), ready := {})
      case MainLogin(fd) => s.(clients := s.clients[fd := Some(false)])
      case MainLogout(fd) => s.(clients := s.clients[fd := None])
      case Dispatch(fd) =>
        s.(main := Dispatching(fd), ready := s.ready - {fd}, clients := s.clients[fd := Some(true)],
           pool := Next(s.pool, CallRunTask(0, fd)))
      case RunTask =>
        var pc := s.pool.callers[0];
        s.(pool := Next(s.pool, CallerStep(0)),
           main := if !pc.Leaving? then s.main else if pc.accepted then Ready else Refused(s.main.fd))
      case TakeBack => s.(main := Ready, clients := s.clients[s.main.fd := Some(false)])
      case WorkerLogin(w) => s.(clients := s.clients[s.pool.workers[w].pc.task := Some(false)])
      case WorkerLogout(w) => s.(clients := s.clients[s.pool.workers[w].pc.task := None])
      case CheckAndClear(w) =>
        s.(clients := Lower(s.clients, s.pool.workers[w].pc.task), cleared := s.cleared[w := true])
      case PoolStep(w) =>
        s.(pool := Next(s.pool, WorkerStep(w)), cleared := s.cleared[w := false])
  }

  ghost function Run(threadNum: nat, acts: seq<Act>): (s: Server)
    ensures Formed(s) && |s.pool.workers| == threadNum
  {
    if acts == [] then NewServer(threadNum) else Advance(Run(threadNum, acts[..|acts| - 1]), acts[|acts| - 1])
  }

  // ---------------------------------------------------------------- invariant

  // The connection worker w has still to clear the flag of, if any.
  ghost function Owes(s: Server, w: nat): Option<Fd>
    requires Formed(s) && w < |s.pool.workers|
  {
    var me := s.pool.workers[w];
    if Pending(me) then me.arg
    else if me.pc.Running? && !s.cleared[w] then Some(me.pc.task)
    else None
  }

  // The main thread raised fd's flag itself and has not launched the task (or is about
  // to lower the flag again).
  ghost predicate InHand(s: Server, fd: Fd)
    requires Formed(s)
  {
    || (s.main == Dispatching(fd) && s.pool.callers[0] != Leaving(fd, true))
    || s.main == Refused(fd)
  }

  ghost predicate FlagsCovered(s: Server)
    requires Formed(s)
  {
    forall fd: Fd :: s.clients[fd] == Some(true) && !InHand(s, fd) ==>
      exists w :: 0 <= w < |s.pool.workers| && Owes(s, w) == Some(fd)
  }

  ghost predicate MainMatchesCaller(s: Server)
    requires Formed(s)
  {
    match s.main
    case Dispatching(fd) => !s.pool.callers[0].Outside? && s.pool.callers[0].task == fd
    case _ => s.pool.callers[0].Outside?
  }

  ghost function Flagged(clients: Clients, from: nat): set<int> {
    set fd: int | from <= fd < MAX_FD && clients[fd] == Some(true)
  }

  ghost predicate ScanBounded(s: Server) {
    && s.active <= |s.pool.workers|
    && (s.main.Counting? ==> s.main.count + |Flagged(s.clients, s.main.i)| <= |s.pool.workers|)
  }

  ghost predicate Good(s: Server) {
    && Formed(s) && Sound(s.pool)
    && MainMatchesCaller(s) && FlagsCovered(s) && ScanBounded(s)
  }

  // ---------------------------------------------------------------- counting

  ghost function Owed(s: Server, n: nat): (r: set<int>)
    requires Formed(s) && n <= |s.pool.workers|
  {
    if n == 0 then {}
    else if Owes(s, n - 1).Some? then Owed(s, n - 1) + {Owes(s, n - 1).value}
    else Owed(s, n - 1)
  }

  lemma {:induction false} OwedIsSmall(s: Server, n: nat)
    requires Formed(s) && n <= |s.pool.workers|
    ensures |Owed(s, n)| <= n
    ensures forall w :: 0 <= w < n && Owes(s, w).Some? ==> Owes(s, w).value in Owed(s, n)
  {
    if n > 0 {
      OwedIsSmall(s, n - 1);
    }
  }

  lemma SubsetIsSmaller(a: set<int>, b: set<int>)
    requires a <= b
    ensures |a| <= |b|
  {
    if a != b {
      assert b == a + (b - a);
    }
  }

  // Distinct flags belong to distinct workers, so there are no more of them.
  lemma FlagsFit(s: Server)
    requires Formed(s) && FlagsCovered(s) && forall fd: Fd :: !InHand(s, fd)
    ensures |Flagged(s.clients, 2)| <= |s.pool.workers|
  {
    OwedIsSmall(s, |s.pool.workers|);
    forall fd | fd in Flagged(s.clients, 2) ensures fd in Owed(s, |s.pool.workers|) {
      var f: Fd := fd;
      assert !InHand(s, f);
    }
    SubsetIsSmaller(Flagged(s.clients, 2), Owed(s, |s.pool.workers|));
  }

  lemma FlaggedFromNext(clients: Clients, i: nat)
    requires i < MAX_FD
    ensures |Flagged(clients, i)| == |Flagged(clients, i + 1)| + if clients[i] == Some(true) then 1 else 0
  {
    if clients[i] == Some(true) {
      assert Flagged(clients, i) == Flagged(clients, i + 1) + {i};
    } else {
      assert Flagged(clients, i) == Flagged(clients, i + 1);
    }
  }

  lemma CoverageStays(s: Server, s': Server)
    requires Formed(s) && Formed(s') && FlagsCovered(s)
    requires s' == s.(main := s'.main, ready := s'.ready, active := s'.active)
    requires forall fd: Fd :: InHand(s, fd) ==> InHand(s', fd)
    ensures FlagsCovered(s')
  {
    forall fd: Fd | s'.clients[fd] == Some(true) && !InHand(s', fd)
      ensures exists w :: 0 <= w < |s'.pool.workers| && Owes(s', w) == Some(fd)
    {
      assert !InHand(s, fd);
      var w :| 0 <= w < |s.pool.workers| && Owes(s, w) == Some(fd);
      assert Owes(s', w) == Owes(s, w);
    }
  }

  lemma ScanOne(s: Server)
    requires Good(s) && s.main.Counting?
    ensures Good(Advance(s, Scan))
  {
    if s.main.i < MAX_FD {
      FlaggedFromNext(s.clients, s.main.i);
    }
    CoverageStays(s, Advance(s, Scan));
  }

  // Lowering flags or dropping clients breaks nothing, whoever does it.
  lemma FewerFlags(s: Server, s': Server)
    requires Good(s) && Formed(s')
    requires s' == s.(clients := s'.clients)
    requires forall fd: Fd :: s'.clients[fd] == Some(true) ==> s.clients[fd] == Some(true)
    ensures Good(s')
  {
    forall fd: Fd | s'.clients[fd] == Some(true) && !InHand(s', fd)
      ensures exists w :: 0 <= w < |s'.pool.workers| && Owes(s', w) == Some(fd)
    {
      assert !InHand(s, fd);
      var w :| 0 <= w < |s.pool.workers| && Owes(s, w) == Some(fd);
      assert Owes(s', w) == Owes(s, w);
    }
    if s.main.Counting? {
      SubsetIsSmaller(Flagged(s'.clients, s.main.i), Flagged(s.clients, s.main.i));
    }
  }

  lemma CheckAndClearKeepsGood(s: Server, w: nat)
    requires Good(s) && Possible(s, CheckAndClear(w))
    ensures Good(Advance(s, CheckAndClear(w)))
  {
    var s' := Advance(s, CheckAndClear(w));
    var mine := s.pool.workers[w].pc.task;
    forall fd: Fd | s'.clients[fd] == Some(true) && !InHand(s', fd)
      ensures exists v :: 0 <= v < |s'.pool.workers| && Owes(s', v) == Some(fd)
    {
      assert fd != mine && !InHand(s, fd);
      var v :| 0 <= v < |s.pool.workers| && Owes(s, v) == Some(fd);
      assert v != w && Owes(s', v) == Owes(s, v);
    }
    if s.main.Counting? {
      SubsetIsSmaller(Flagged(s'.clients, s.main.i), Flagged(s.clients, s.main.i));
    }
  }

  lemma WorkerKeepsGood(s: Server, w: nat)
    requires Good(s) && Possible(s, PoolStep(w))
    ensures Good(Advance(s, PoolStep(w)))
  {
    var s' := Advance(s, PoolStep(w));
    NextKeepsSound(s.pool, WorkerStep(w));
    assert WorkerSound(s.pool, w);
    forall fd: Fd | s'.clients[fd] == Some(true) && !InHand(s', fd)
      ensures exists v :: 0 <= v < |s'.pool.workers| && Owes(s', v) == Some(fd)
    {
      assert !InHand(s, fd);
      var v :| 0 <= v < |s.pool.workers| && Owes(s, v) == Some(fd);
      assert Owes(s', v) == Owes(s, v);
    }
  }

  lemma RunTaskKeepsGood(s: Server)
    requires Good(s) && Possible(s, RunTask)
    ensures Good(Advance(s, RunTask))
  {
    var s' := Advance(s, RunTask);
    NextKeepsSound(s.pool, CallerStep(0));
    var pc := s.pool.callers[0];
    assert CallerSound(s.pool, 0);
    forall fd: Fd | s'.clients[fd] == Some(true) && !InHand(s', fd)
      ensures exists v :: 0 <= v < |s'.pool.workers| && Owes(s', v) == Some(fd)
    {
      if InHand(s, fd) {
        assert pc.Launching? && Owes(s', pc.i) == Some(fd);
      } else {
        var v :| 0 <= v < |s.pool.workers| && Owes(s, v) == Some(fd);
        assert Owes(s', v) == Owes(s, v);
      }
    }
  }

  lemma DispatchKeepsGood(s: Server, fd: Fd)
    requires Good(s) && Possible(s, Dispatch(fd))
    ensures Good(Advance(s, Dispatch(fd)))
  {
    var s' := Advance(s, Dispatch(fd));
    NextKeepsSound(s.pool, CallRunTask(0, fd));
    forall f: Fd | s'.clients[f] == Some(true) && !InHand(s', f)
      ensures exists v :: 0 <= v < |s'.pool.workers| && Owes(s', v) == Some(f)
    {
      assert f != fd && !InHand(s, f);
      var v :| 0 <= v < |s.pool.workers| && Owes(s, v) == Some(f);
      assert Owes(s', v) == Owes(s, v);
    }
  }

  lemma MainMovesOn(s: Server, s': Server)
    requires Good(s) && Formed(s') && s' == s.(main := s'.main, ready := s'.ready, clients := s'.clients)
    requires s.main.Ready? || s.main.Refused?
    requires s'.main == Ready || s'.main == Counting(2, 0)
    requires forall fd: Fd :: s'.clients[fd] == Some(true) ==> s.clients[fd] == Some(true) && s.main != Refused(fd)
    ensures Good(s')
  {
    forall fd: Fd | s'.clients[fd] == Some(true)
      ensures exists w :: 0 <= w < |s'.pool.workers| && Owes(s', w) == Some(fd)
    {
      assert !InHand(s, fd);
      var w :| 0 <= w < |s.pool.workers| && Owes(s, w) == Some(fd);
      assert Owes(s', w) == Owes(s, w);
    }
    FlagsFit(s');
  }

  lemma AdvanceKeepsGood(s: Server, a: Act)
    requires Good(s)
    ensures Good(Advance(s, a))
  {
    if Possible(s, a) {
      match a
      case Scan => ScanOne(s);
      case Again => MainMovesOn(s, Advance(s, a));
      case MainLogin(_) => FewerFlags(s, Advance(s, a));
      case MainLogout(_) => FewerFlags(s, Advance(s, a));
      case Dispatch(fd) => DispatchKeepsGood(s, fd);
      case RunTask => RunTaskKeepsGood(s);
      case TakeBack => MainMovesOn(s, Advance(s, a));
      case WorkerLogin(_) => FewerFlags(s, Advance(s, a));
      case WorkerLogout(_) => FewerFlags(s, Advance(s, a));
      case CheckAndClear(w) => CheckAndClearKeepsGood(s, w);
      case PoolStep(w) => WorkerKeepsGood(s, w);
    }
  }

  lemma {:induction false} RunIsGood(threadNum: nat, acts: seq<Act>)
    ensures Good(Run(threadNum, acts))
  {
    if acts == [] {
      var s := NewServer(threadNum);
      ThreadPool.RunIsSound<Fd>(threadNum, 1, []);
      assert Flagged(s.clients, 2) == {};
    } else {
      RunIsGood(threadNum, acts[..|acts| - 1]);
      AdvanceKeepsGood(Run(threadNum, acts[..|acts| - 1]), acts[|acts| - 1]);
    }
  }

  // In every interleaving, re-login and descriptor reuse included, the published number
  // of active threads never exceeds the size of the pool.
  lemma ActiveNeverExceedsPool(threadNum: nat, acts: seq<Act>)
    ensures Run(threadNum, acts).active <= threadNum
  {
    RunIsGood(threadNum, acts);
  }

  // The flags tell the truth that far: between dispatches, every raised flag belongs to
  // a worker of its own which has yet to lower it.
  lemma EveryFlagHasItsWorker(threadNum: nat, acts: seq<Act>, fd: Fd)
    ensures var s := Run(threadNum, acts);
      s.clients[fd] == Some(true) && !InHand(s, fd) ==>
        exists w :: 0 <= w < threadNum && Owes(s, w) == Some(fd) && s.pool.workers[w].busy
  {
    var s := Run(threadNum, acts);
    RunIsGood(threadNum, acts);
    if s.clients[fd] == Some(true) && !InHand(s, fd) {
      var w :| 0 <= w < threadNum && Owes(s, w) == Some(fd);
      assert WorkerSound(s.pool, w);
    }
  }
}
