/** A run of the file server that ends with two workers on one connection. */
module ConnectionRuns {
  import opened FileServer
  import opened ConnectionOwners
  import opened Options
  import ThreadPool

  lemma RunOneMore(threadNum: nat, acts: seq<Act>, a: Act)
    ensures Run(threadNum, acts + [a]) == Advance(Run(threadNum, acts), a)
  {
    assert (acts + [a])[..|acts|] == acts;
  }

  // The scan goes on to its end.
  lemma Sweep(threadNum: nat, acts: seq<Act>) returns (longer: seq<Act>)
    requires Run(threadNum, acts).main.Counting? && Run(threadNum, acts).main.i <= MAX_FD
    ensures var s, s' := Run(threadNum, acts), Run(threadNum, longer);
      && s' == s.(main := Ready, ready := s'.ready, active := s'.active)
      && s.ready <= s'.ready && forall fd: Fd :: s.main.i <= fd && s.clients[fd] == Some(false) ==> fd in s'.ready
    decreases MAX_FD - Run(threadNum, acts).main.i
  {
    hide Run;
    RunOneMore(threadNum, acts, Scan);
    if Run(threadNum, acts).main.i == MAX_FD {
      longer := acts + [Scan];
    } else {
      longer := Sweep(threadNum, acts + [Scan]);
    }
  }

  type PoolWorker = ThreadPool.Worker<Fd>

  // The workers as given, none past its check-and-clear, nobody in run_task, and fd's
  // record.
  ghost predicate Resting(s: Server, fd: Fd, flag: Option<bool>, workers: seq<PoolWorker>) {
    && Formed(s) && s.pool.workers == workers && (forall w :: 0 <= w < |s.cleared| ==> !s.cleared[w])
    && s.pool.callers == [ThreadPool.Outside] && s.pool.holder == None && s.clients[fd] == flag
  }

  ghost function Free(): PoolWorker {
    ThreadPool.Worker(ThreadPool.Wait, false, true, None)
  }

  ghost function Serving(fd: Fd): PoolWorker {
    ThreadPool.Worker(ThreadPool.Running(fd), true, true, Some(fd))
  }

  lemma BootWorker(threadNum: nat, acts: seq<Act>, w: nat) returns (longer: seq<Act>)
    requires var s := Run(threadNum, acts);
      w < threadNum && s.pool.workers[w] == ThreadPool.Worker(ThreadPool.Boot, true, false, None)
    ensures var s, s' := Run(threadNum, acts), Run(threadNum, longer);
      && s'.main == s.main && s'.ready == s.ready && s'.clients == s.clients && s'.active == s.active
      && s'.pool.callers == s.pool.callers && s'.pool.holder == s.pool.holder
      && s'.pool.workers == s.pool.workers[w := Free()] && s'.cleared == s.cleared[w := false]
  {
    hide Run;
    longer := acts + [PoolStep(w)] + [PoolStep(w)];
    RunOneMore(threadNum, acts, PoolStep(w));
    RunOneMore(threadNum, acts + [PoolStep(w)], PoolStep(w));
  }

  // Two workers are waiting for work when a new connection logs in.
  lemma Connect(threadNum: nat, fd: Fd) returns (acts: seq<Act>, workers: seq<PoolWorker>)
    requires threadNum >= 2
    ensures |workers| == threadNum && workers[0] == workers[1] == Free()
    ensures var s := Run(threadNum, acts); Resting(s, fd, Some(false), workers) && s.main == Counting(2, 0)
  {
    assert Run(threadNum, []) == NewServer(threadNum);
    workers := NewServer(threadNum).pool.workers[0 := Free()][1 := Free()];
    acts := BootWorker(threadNum, [], 0);
    acts := BootWorker(threadNum, acts, 1);
    acts := Sweep(threadNum, acts);
    hide Run;
    RunOneMore(threadNum, acts, MainLogin(fd));
    RunOneMore(threadNum, acts + [MainLogin(fd)], Again);
    acts := acts + [MainLogin(fd)] + [Again];
  }

  // Where run_task is after i steps when worker w is the first that is not busy.
  ghost function CallerAt(fd: Fd, w: nat, i: nat): ThreadPool.CallerPc<Fd> {
    if i == 0 then ThreadPool.Entering(fd)
    else if i <= w + 1 then ThreadPool.Scanning(fd, i - 1)
    else if i == w + 2 then ThreadPool.Claiming(fd, w)
    else if i == w + 3 then ThreadPool.Storing(fd, w)
    else if i == w + 4 then ThreadPool.Launching(fd, w)
    else if i == w + 5 then ThreadPool.Leaving(fd, true)
    else ThreadPool.Outside
  }

  ghost function WorkerAt(fd: Fd, w: nat, i: nat): PoolWorker {
    ThreadPool.Worker(ThreadPool.Wait, i >= w + 3, i < w + 5, if i < w + 4 then None else Some(fd))
  }

  ghost predicate Handing(s: Server, fd: Fd, workers: seq<PoolWorker>, w: nat, i: nat) {
    && Formed(s) && s.clients[fd] == Some(true) && (forall v :: 0 <= v < |s.cleared| ==> !s.cleared[v])
    && s.main == (if i < w + 6 then Dispatching(fd) else Ready)
    && s.pool.callers == [CallerAt(fd, w, i)] && s.pool.holder == (if 1 <= i < w + 6 then Some(0) else None)
    && w < |workers| && s.pool.workers == workers[w := WorkerAt(fd, w, i)]
  }

  ghost predicate FirstFree(workers: seq<PoolWorker>, w: nat) {
    w < |workers| && workers[w] == Free() && forall v :: 0 <= v < w ==> workers[v].busy
  }

  lemma HandingGoesOn(s: Server, fd: Fd, workers: seq<PoolWorker>, w: nat, i: nat)
    requires FirstFree(workers, w) && Handing(s, fd, workers, w, i) && i < w + 6
    ensures Handing(Advance(s, RunTask), fd, workers, w, i + 1)
  {
    assert 1 <= i <= w ==> s.pool.workers[i - 1] == workers[i - 1];
  }

  // The main loop hands fd to the first worker that is not busy, which starts on it.
  lemma HandOut(threadNum: nat, acts: seq<Act>, fd: Fd, workers: seq<PoolWorker>, w: nat) returns (longer: seq<Act>)
    requires var s := Run(threadNum, acts);
      Resting(s, fd, Some(false), workers) && s.main == Ready && fd in s.ready && FirstFree(workers, w)
    ensures var s := Run(threadNum, longer);
      Resting(s, fd, Some(true), workers[w := Serving(fd)]) && s.main == Ready
  {
    hide Run;
    RunOneMore(threadNum, acts, Dispatch(fd));
    assert workers[w := WorkerAt(fd, w, 0)] == workers;
    longer := acts + [Dispatch(fd)];
    var i: nat := 0;
    while i < w + 6
      invariant i <= w + 6 && Handing(Run(threadNum, longer), fd, workers, w, i)
    {
      hide Advance, Handing, FirstFree;
      RunOneMore(threadNum, longer, RunTask);
      HandingGoesOn(Run(threadNum, longer), fd, workers, w, i);
      longer := longer + [RunTask];
      i := i + 1;
    }
    longer := StartCall(threadNum, longer, fd, workers, w);
  }

  lemma StartCall(threadNum: nat, acts: seq<Act>, fd: Fd, workers: seq<PoolWorker>, w: nat) returns (longer: seq<Act>)
    requires Handing(Run(threadNum, acts), fd, workers, w, w + 6)
    ensures var s := Run(threadNum, longer);
      Resting(s, fd, Some(true), workers[w := Serving(fd)]) && s.main == Ready
  {
    hide Run;
    RunOneMore(threadNum, acts, PoolStep(w));
    RunOneMore(threadNum, acts + [PoolStep(w)], PoolStep(w));
    longer := acts + [PoolStep(w)] + [PoolStep(w)];
  }

  // A worker that handles a login message on a connection already logged in puts its flag
  // down.
  lemma LoginAgain(threadNum: nat, acts: seq<Act>, fd: Fd, workers: seq<PoolWorker>) returns (longer: seq<Act>)
    requires var s := Run(threadNum, acts);
      Resting(s, fd, Some(true), workers) && s.main == Ready && workers != [] && workers[0] == Serving(fd)
    ensures var s := Run(threadNum, longer); Resting(s, fd, Some(false), workers) && s.main == Counting(2, 0)
  {
    hide Run;
    RunOneMore(threadNum, acts, WorkerLogin(0));
    RunOneMore(threadNum, acts + [WorkerLogin(0)], Again);
    longer := acts + [WorkerLogin(0)] + [Again];
  }

  lemma SweepFinds(threadNum: nat, acts: seq<Act>, fd: Fd, workers: seq<PoolWorker>) returns (longer: seq<Act>)
    requires var s := Run(threadNum, acts);
      Resting(s, fd, Some(false), workers) && s.main == Counting(2, 0) && fd >= 2
    ensures var s := Run(threadNum, longer);
      Resting(s, fd, Some(false), workers) && s.main == Ready && fd in s.ready
  {
    hide Run;
    longer := Sweep(threadNum, acts);
  }

  // A second login message on a connection a worker is handling puts its flag down; the
  // scan, which starts at descriptor 2, takes it for free, and a second worker gets it.
  lemma SecondLoginSharesTheConnection(threadNum: nat, fd: Fd) returns (acts: seq<Act>)
    requires threadNum >= 2 && fd >= 2
    ensures var s := Run(threadNum, acts);
      && s.pool.workers[0] == s.pool.workers[1] == Serving(fd) && !s.cleared[0] && !s.cleared[1]
      && !OneEach(s) && !HandsOutClean(threadNum, acts)
  {
    var workers;
    acts, workers := Connect(threadNum, fd);
    acts := SweepFinds(threadNum, acts, fd, workers);
    acts := HandOut(threadNum, acts, fd, workers, 0);
    workers := workers[0 := Serving(fd)];
    acts := LoginAgain(threadNum, acts, fd, workers);
    acts := SweepFinds(threadNum, acts, fd, workers);
    acts := HandOut(threadNum, acts, fd, workers, 1);
    TwoShare(threadNum, acts, fd);
  }

  lemma TwoShare(threadNum: nat, acts: seq<Act>, fd: Fd)
    requires threadNum >= 2
    requires var s := Run(threadNum, acts);
      s.pool.workers[0] == s.pool.workers[1] == Serving(fd) && !s.cleared[0] && !s.cleared[1]
    ensures !OneEach(Run(threadNum, acts)) && !HandsOutClean(threadNum, acts)
  {
    hide HandsOutClean, Run;
    assert !Apart(Run(threadNum, acts), 0, 1);
    OneWorkerEachIff(threadNum, acts);
  }
}
