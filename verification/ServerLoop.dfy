/** What the file server's main loop sees: the number it publishes, the connections it may
    hand out, and how a dispatch ends. */
module ServerLoop {
  import opened FileServer
  import opened Options
  import ThreadPool
  import PoolCalls

  // ---------------------------------------------------------------- what the scan saw

  // The connections whose flag was up when the scan came to them; a new round starts
  // afresh.
  ghost function SeenNext(s: Server, a: Act, seen: set<int>): set<int>
    requires Formed(s)
  {
    if !Possible(s, a) then seen
    else
      match a
      case Scan => if s.main.i < MAX_FD && s.clients[s.main.i] == Some(true) then seen + {s.main.i} else seen
      case Again => {}
      case _ => seen
  }

  ghost function Seen(threadNum: nat, acts: seq<Act>): set<int> {
    if acts == [] then {}
    else
      var front := acts[..|acts| - 1];
      SeenNext(Run(threadNum, front), acts[|acts| - 1], Seen(threadNum, front))
  }

  ghost predicate SeenFits(s: Server, seen: set<int>) {
    match s.main
    case Counting(i, count) =>
      && count == |seen| && 2 <= i
      && (forall fd :: fd in seen ==> 2 <= fd < i)
      && (forall fd :: fd in s.ready ==> 2 <= fd < i)
    case _ => s.active == |seen|
  }

  lemma StepFits(s: Server, a: Act, seen: set<int>)
    requires Formed(s) && SeenFits(s, seen)
    ensures SeenFits(Advance(s, a), SeenNext(s, a, seen))
  {
    hide ThreadPool.Next, ThreadPool.Enabled, Lower, Handling;
    if a == Scan || a == Again {
      RoundsFit(s, a, seen);
    }
  }

  lemma RoundsFit(s: Server, a: Act, seen: set<int>)
    requires Formed(s) && SeenFits(s, seen) && (a == Scan || a == Again)
    ensures SeenFits(Advance(s, a), SeenNext(s, a, seen))
  {
    hide ThreadPool.Next, ThreadPool.Enabled, Lower, Handling;
  }

  lemma {:induction false} RunFits(threadNum: nat, acts: seq<Act>)
    ensures SeenFits(Run(threadNum, acts), Seen(threadNum, acts))
  {
    if acts != [] {
      hide Advance, SeenNext, SeenFits;
      var front := acts[..|acts| - 1];
      RunFits(threadNum, front);
      StepFits(Run(threadNum, front), acts[|acts| - 1], Seen(threadNum, front));
    }
  }

  // In every run: outside a scan the published number is that of the connections whose
  // flag was up when the last scan came to them, and nothing else ever changes it.
  lemma ActiveIsWhatWasSeen(threadNum: nat, acts: seq<Act>, a: Act)
    ensures var s, s' := Run(threadNum, acts), Advance(Run(threadNum, acts), a);
      && (!s.main.Counting? ==> s.active == |Seen(threadNum, acts)|)
      && (!(a == Scan && s.main.Counting? && s'.main == Ready) ==> s'.active == s.active)
  {
    hide Run, Seen, ThreadPool.Next, ThreadPool.Enabled, Lower, Handling;
    RunFits(threadNum, acts);
  }

  // ---------------------------------------------------------------- one scan

  // The connections in the scan's reach with this flag.
  ghost function Marked(clients: Clients, up: bool): set<int> {
    set fd: int | 2 <= fd < MAX_FD && clients[fd] == Some(up)
  }

  // Those that had it all the time, and those that had it at some time.
  ghost function Always(threadNum: nat, acts: seq<Act>, more: seq<Act>, up: bool): set<int> {
    var now := Marked(Run(threadNum, acts + more).clients, up);
    if more == [] then now else Always(threadNum, acts, more[..|more| - 1], up) * now
  }

  ghost function Sometime(threadNum: nat, acts: seq<Act>, more: seq<Act>, up: bool): set<int> {
    var now := Marked(Run(threadNum, acts + more).clients, up);
    if more == [] then now else Sometime(threadNum, acts, more[..|more| - 1], up) + now
  }

  // From the beginning of a scan on, the main thread has not left it.
  ghost predicate WithinScan(threadNum: nat, acts: seq<Act>, more: seq<Act>) {
    && Run(threadNum, acts).main == Counting(2, 0)
    && forall k :: 0 <= k < |more| ==> Run(threadNum, acts + more[..k]).main.Counting?
  }

  ghost function Reached(s: Server): nat {
    if s.main.Counting? then s.main.i else MAX_FD
  }

  // With what was up all the time among what it has seen, and what was down all the time
  // among what it has found ready, as far as it has come; and nothing else than what was
  // so at some time.
  ghost predicate ScanFits(s: Server, seen: set<int>, up: set<int>, everUp: set<int>, down: set<int>,
                           everDown: set<int>)
  {
    && (forall fd :: fd in up && fd < Reached(s) ==> fd in seen)
    && (forall fd :: fd in seen ==> fd in everUp)
    && (forall fd :: fd in down && fd < Reached(s) ==> fd in s.ready)
    && (forall fd :: fd in s.ready ==> fd in everDown)
  }

  lemma ScanStarts(s: Server, seen: set<int>)
    requires Formed(s) && SeenFits(s, seen) && s.main == Counting(2, 0)
    ensures var up, down := Marked(s.clients, true), Marked(s.clients, false); ScanFits(s, seen, up, up, down, down)
  {
    assert |seen| == 0 && seen == {};
  }

  lemma ScanGoesOn(s: Server, a: Act, seen: set<int>, up: set<int>, everUp: set<int>, down: set<int>,
                   everDown: set<int>)
    requires Formed(s) && s.main.Counting? && SeenFits(s, seen) && ScanFits(s, seen, up, everUp, down, everDown)
    requires up <= Marked(s.clients, true) <= everUp && down <= Marked(s.clients, false) <= everDown
    ensures var s' := Advance(s, a);
      ScanFits(s', SeenNext(s, a, seen), up * Marked(s'.clients, true), everUp + Marked(s'.clients, true),
               down * Marked(s'.clients, false), everDown + Marked(s'.clients, false))
  {
  }

  lemma {:induction false} ScanIsFollowed(threadNum: nat, acts: seq<Act>, more: seq<Act>)
    requires WithinScan(threadNum, acts, more)
    ensures ScanFits(Run(threadNum, acts + more), Seen(threadNum, acts + more),
                     Always(threadNum, acts, more, true), Sometime(threadNum, acts, more, true),
                     Always(threadNum, acts, more, false), Sometime(threadNum, acts, more, false))
  {
    hide Run, ScanFits, SeenFits, Advance, Seen, SeenNext, Marked;
    if more == [] {
      assert acts + more == acts;
      RunFits(threadNum, acts);
      ScanStarts(Run(threadNum, acts), Seen(threadNum, acts));
    } else {
      var front, last := more[..|more| - 1], more[|more| - 1];
      assert forall k :: 0 <= k < |front| ==> front[..k] == more[..k];
      ScanIsFollowed(threadNum, acts, front);
      RunFits(threadNum, acts + front);
      assert acts + more == acts + front + [last];
      RunAfter(threadNum, acts + front, last);
      Bounds(threadNum, acts, front);
      ScanGoesOn(Run(threadNum, acts + front), last, Seen(threadNum, acts + front),
                 Always(threadNum, acts, front, true), Sometime(threadNum, acts, front, true),
                 Always(threadNum, acts, front, false), Sometime(threadNum, acts, front, false));
    }
  }

  lemma RunAfter(threadNum: nat, acts: seq<Act>, a: Act)
    ensures Run(threadNum, acts + [a]) == Advance(Run(threadNum, acts), a)
    ensures Seen(threadNum, acts + [a]) == SeenNext(Run(threadNum, acts), a, Seen(threadNum, acts))
  {
    assert (acts + [a])[..|acts|] == acts;
  }

  lemma Bounds(threadNum: nat, acts: seq<Act>, more: seq<Act>)
    ensures var now := Run(threadNum, acts + more).clients;
      forall up :: Always(threadNum, acts, more, up) <= Marked(now, up) <= Sometime(threadNum, acts, more, up)
  {
  }

  // When a scan is over, the published number lies between that of the flags that were up
  // all the time and that of those that were up at some time; and the connections that
  // may be handed out are between those whose flag was down all the time and those whose
  // flag was down at some time.
  lemma ScanTellsWhatItSaw(threadNum: nat, acts: seq<Act>, more: seq<Act>)
    requires WithinScan(threadNum, acts, more) && !Run(threadNum, acts + more).main.Counting?
    ensures var s := Run(threadNum, acts + more);
      && |Always(threadNum, acts, more, true)| <= s.active <= |Sometime(threadNum, acts, more, true)|
      && Always(threadNum, acts, more, false) <= (set fd: Fd | fd in s.ready :: fd as int)
      && forall fd: Fd :: fd in s.ready ==> fd in Sometime(threadNum, acts, more, false)
  {
    hide Run, SeenFits, Seen;
    ScanIsFollowed(threadNum, acts, more);
    ActiveIsWhatWasSeen(threadNum, acts + more, Again);
    Bounds(threadNum, acts, more);
    SubsetIsSmaller(Always(threadNum, acts, more, true), Seen(threadNum, acts + more));
    SubsetIsSmaller(Seen(threadNum, acts + more), Sometime(threadNum, acts, more, true));
  }

  ghost predicate Steady(threadNum: nat, acts: seq<Act>, more: seq<Act>) {
    forall k :: 0 <= k <= |more| ==> Run(threadNum, acts + more[..k]).clients == Run(threadNum, acts).clients
  }

  lemma {:induction false} NothingMoves(threadNum: nat, acts: seq<Act>, more: seq<Act>, up: bool)
    requires Steady(threadNum, acts, more)
    ensures var now := Marked(Run(threadNum, acts).clients, up);
      Always(threadNum, acts, more, up) == Sometime(threadNum, acts, more, up) == now
  {
    hide Run, Marked;
    assert more[..|more|] == more;
    if more == [] {
      assert acts + more == acts;
    } else {
      var front := more[..|more| - 1];
      assert forall k :: 0 <= k <= |front| ==> front[..k] == more[..k];
      NothingMoves(threadNum, acts, front, up);
    }
  }

  // If no record changed meanwhile, both are exact.
  lemma SteadyScanIsExact(threadNum: nat, acts: seq<Act>, more: seq<Act>)
    requires WithinScan(threadNum, acts, more) && !Run(threadNum, acts + more).main.Counting?
    requires Steady(threadNum, acts, more)
    ensures var s := Run(threadNum, acts + more);
      && s.active == |Flagged(s.clients, 2)|
      && forall fd: Fd :: fd in s.ready <==> fd >= 2 && s.clients[fd] == Some(false)
  {
    hide Run, WithinScan;
    NothingMoves(threadNum, acts, more, true);
    NothingMoves(threadNum, acts, more, false);
    ScanTellsWhatItSaw(threadNum, acts, more);
    assert more[..|more|] == more;
    var s := Run(threadNum, acts + more);
    assert Marked(s.clients, true) == Flagged(s.clients, 2);
    forall fd: Fd ensures fd in s.ready <==> fd >= 2 && s.clients[fd] == Some(false) {
      assert (fd as int) in Marked(s.clients, false) <==> fd >= 2 && s.clients[fd] == Some(false);
    }
  }

  // ---------------------------------------------------------------- the pool inside the server

  // What a step of the server is for its pool.
  ghost function PoolPart(s: Server, a: Act): seq<ThreadPool.Action<Fd>>
    requires Formed(s)
  {
    if !Possible(s, a) then []
    else
      match a
      case Dispatch(fd) => [ThreadPool.CallRunTask(0, fd)]
      case RunTask => [ThreadPool.CallerStep(0)]
      case PoolStep(w) => [ThreadPool.WorkerStep(w)]
      case _ => []
  }

  ghost function PoolActs(threadNum: nat, acts: seq<Act>): seq<ThreadPool.Action<Fd>> {
    if acts == [] then []
    else
      var front := acts[..|acts| - 1];
      PoolActs(threadNum, front) + PoolPart(Run(threadNum, front), acts[|acts| - 1])
  }

  lemma PoolGoesOn(threadNum: nat, before: seq<ThreadPool.Action<Fd>>, part: seq<ThreadPool.Action<Fd>>)
    requires |part| <= 1
    ensures var p := ThreadPool.Run(threadNum, 1, before);
      ThreadPool.Run(threadNum, 1, before + part) == if part == [] then p else ThreadPool.Next(p, part[0])
  {
    hide ThreadPool.Run, ThreadPool.Next;
    if part == [] {
      assert before + part == before;
    } else {
      assert part == [part[0]];
      PoolCalls.RunAfter(threadNum, 1, before, part[0]);
    }
  }

  // The pool of every run of the server is that of a run of the pool alone, so all that
  // holds of the pool holds here.
  lemma {:induction false} PoolRunsAsAlone(threadNum: nat, acts: seq<Act>)
    ensures Run(threadNum, acts).pool == ThreadPool.Run(threadNum, 1, PoolActs(threadNum, acts))
  {
    if acts != [] {
      hide Run, ThreadPool.Run, PoolPart, Advance, ThreadPool.Next, ThreadPool.Shaped, Seen;
      var front, last := acts[..|acts| - 1], acts[|acts| - 1];
      PoolRunsAsAlone(threadNum, front);
      assert front + [last] == acts;
      RunAfter(threadNum, front, last);
      PoolFollows(Run(threadNum, front), last);
      PoolGoesOn(threadNum, PoolActs(threadNum, front), PoolPart(Run(threadNum, front), last));
    }
  }

  lemma PoolFollows(s: Server, a: Act)
    requires Formed(s)
    ensures var part := PoolPart(s, a);
      Advance(s, a).pool == (if part == [] then s.pool else ThreadPool.Next(s.pool, part[0])) && |part| <= 1
  {
  }

  // ---------------------------------------------------------------- how a dispatch ends

  // How many steps of run_task the main thread takes.
  ghost function RunTaskSteps(threadNum: nat, acts: seq<Act>, more: seq<Act>): nat {
    if more == [] then 0
    else
      var front, last := more[..|more| - 1], more[|more| - 1];
      RunTaskSteps(threadNum, acts, front)
      + if last == RunTask && Possible(Run(threadNum, acts + front), last) then 1 else 0
  }

  ghost predicate StillDispatching(threadNum: nat, acts: seq<Act>, more: seq<Act>) {
    forall k :: 0 <= k <= |more| ==> Run(threadNum, acts + more[..k]).main.Dispatching?
  }

  lemma DispatchGoesOn(s: Server, a: Act)
    requires Good(s) && s.main.Dispatching?
    ensures Possible(s, RunTask)
    ensures PoolCalls.Left(s.pool, 0) <= |s.pool.workers| + 6
    ensures var s' := Advance(s, a);
      if a == RunTask then PoolCalls.Left(s'.pool, 0) < PoolCalls.Left(s.pool, 0)
      else PoolCalls.Left(s'.pool, 0) == PoolCalls.Left(s.pool, 0)
  {
    hide FlagsCovered, ScanBounded;
    assert ThreadPool.CallerSound(s.pool, 0);
  }

  // A dispatch never waits for anybody, and lasts at most threadNum + 6 steps of the main
  // thread, under every schedule.
  lemma {:induction false} DispatchIsBounded(threadNum: nat, acts: seq<Act>, more: seq<Act>)
    requires StillDispatching(threadNum, acts, more)
    ensures Possible(Run(threadNum, acts + more), RunTask)
    ensures RunTaskSteps(threadNum, acts, more) + PoolCalls.Left(Run(threadNum, acts + more).pool, 0) <= threadNum + 6
  {
    hide Run, Good, Advance, PoolCalls.Left;
    RunIsGood(threadNum, acts + more);
    assert more[..|more|] == more;
    DispatchGoesOn(Run(threadNum, acts + more), RunTask);
    if more != [] {
      var front, last := more[..|more| - 1], more[|more| - 1];
      assert forall k :: 0 <= k <= |front| ==> front[..k] == more[..k];
      DispatchIsBounded(threadNum, acts, front);
      assert acts + more == acts + front + [last];
      RunAfter(threadNum, acts + front, last);
      assert front[..|front|] == front;
      RunIsGood(threadNum, acts + front);
      DispatchGoesOn(Run(threadNum, acts + front), last);
    }
  }

  // It ends in a refusal, and the client is told that the server is busy, if and only if
  // each worker was busy when run_task came to it.
  lemma RefusedIffPoolIsBusy(threadNum: nat, acts: seq<Act>)
    requires var s := Run(threadNum, acts); Possible(s, RunTask) && s.pool.callers[0].Leaving?
    ensures var s, s' := Run(threadNum, acts), Advance(Run(threadNum, acts), RunTask);
      s'.main == if PoolCalls.Found(threadNum, 1, PoolActs(threadNum, acts), 0) == PoolCalls.AllBusy(threadNum)
                 then Refused(s.main.fd) else Ready
  {
    PoolRunsAsAlone(threadNum, acts);
    PoolCalls.RefusedIffAllBusy(threadNum, 1, PoolActs(threadNum, acts), 0);
  }

  // ---------------------------------------------------------------- a request done

  // An action that concerns this connection's record or flag.
  ghost predicate Concerns(s: Server, a: Act, fd: Fd)
    requires Formed(s)
  {
    Possible(s, a) &&
    match a
    case MainLogin(f) => f == fd
    case MainLogout(f) => f == fd
    case Dispatch(f) => f == fd
    case TakeBack => s.main.fd == fd
    case WorkerLogin(w) => s.pool.workers[w].pc.task == fd
    case WorkerLogout(w) => s.pool.workers[w].pc.task == fd
    case CheckAndClear(w) => s.pool.workers[w].pc.task == fd
    case _ => false
  }

  ghost predicate LeftAlone(threadNum: nat, acts: seq<Act>, more: seq<Act>, fd: Fd) {
    forall k :: 0 <= k < |more| ==> !Concerns(Run(threadNum, acts + more[..k]), more[k], fd)
  }

  lemma OthersDoNotTouch(s: Server, a: Act, fd: Fd)
    requires Formed(s) && !Concerns(s, a, fd)
    ensures Advance(s, a).clients[fd] == s.clients[fd]
  {
  }

  lemma {:induction false} RecordStays(threadNum: nat, acts: seq<Act>, more: seq<Act>, fd: Fd)
    requires LeftAlone(threadNum, acts, more, fd)
    ensures Run(threadNum, acts + more).clients[fd] == Run(threadNum, acts).clients[fd]
  {
    hide Run, Concerns;
    if more == [] {
      assert acts + more == acts;
    } else {
      var front, last := more[..|more| - 1], more[|more| - 1];
      assert forall k :: 0 <= k <= |front| ==> front[..k] == more[..k];
      RecordStays(threadNum, acts, front, fd);
      assert acts + more == acts + front + [last] && front[..|front|] == front;
      RunAfter(threadNum, acts + front, last);
      OthersDoNotTouch(Run(threadNum, acts + front), last, fd);
    }
  }

  lemma {:induction false} DownAllTheTime(threadNum: nat, acts: seq<Act>, more: seq<Act>, fd: Fd)
    requires LeftAlone(threadNum, acts, more, fd) && fd >= 2 && Run(threadNum, acts).clients[fd] == Some(false)
    ensures fd in Always(threadNum, acts, more, false)
  {
    hide Run, Concerns;
    RecordStays(threadNum, acts, more, fd);
    if more != [] {
      var front := more[..|more| - 1];
      assert forall k :: 0 <= k <= |front| ==> front[..k] == more[..k];
      DownAllTheTime(threadNum, acts, front, fd);
    }
  }

  // When a worker has handled a request, its client is logged in as before with the flag
  // down; and unless something else happens to that client, the next scan finds it and
  // the main loop can hand out its next request.
  lemma FinishedRequestIsServedAgain(threadNum: nat, acts: seq<Act>, w: nat, fd: Fd, rest: seq<Act>, scan: seq<Act>)
    requires var s := Run(threadNum, acts);
      Possible(s, CheckAndClear(w)) && s.pool.workers[w].pc.task == fd && s.clients[fd].Some? && fd >= 2
    requires var done := acts + [CheckAndClear(w)];
      && LeftAlone(threadNum, done, rest, fd) && LeftAlone(threadNum, done + rest, scan, fd)
      && WithinScan(threadNum, done + rest, scan) && Run(threadNum, done + rest + scan).main == Ready
    ensures Possible(Run(threadNum, acts + [CheckAndClear(w)] + rest + scan), Dispatch(fd))
  {
    hide Run, LeftAlone, WithinScan;
    var done := acts + [CheckAndClear(w)];
    RunAfter(threadNum, acts, CheckAndClear(w));
    RecordStays(threadNum, done, rest, fd);
    DownAllTheTime(threadNum, done + rest, scan, fd);
    RecordStays(threadNum, done + rest, scan, fd);
    ScanTellsWhatItSaw(threadNum, done + rest, scan);
    assert (fd as int) in Always(threadNum, done + rest, scan, false);
  }

  // ---------------------------------------------------------------- who is logged in

  ghost function LoggedInNext(s: Server, a: Act, fds: set<Fd>): set<Fd>
    requires Formed(s)
  {
    if !Possible(s, a) then fds
    else
      match a
      case MainLogin(fd) => fds + {fd}
      case MainLogout(fd) => fds - {fd}
      case WorkerLogin(w) => fds + {s.pool.workers[w].pc.task}
      case WorkerLogout(w) => fds - {s.pool.workers[w].pc.task}
      case _ => fds
  }

  // Logged in and not out again since, whoever handled it; a dispatch that is taken back
  // writes through a record pointer that must still be there.
  ghost function LoggedIn(threadNum: nat, acts: seq<Act>): set<Fd> {
    if acts == [] then {}
    else
      var front := acts[..|acts| - 1];
      LoggedInNext(Run(threadNum, front), acts[|acts| - 1], LoggedIn(threadNum, front))
  }

  ghost predicate RecordsAre(s: Server, fds: set<Fd>) {
    forall fd: Fd :: s.clients[fd].Some? <==> fd in fds
  }

  lemma StepKeepsRecords(s: Server, a: Act, fds: set<Fd>)
    requires Formed(s) && RecordsAre(s, fds)
    ensures RecordsAre(Advance(s, a), LoggedInNext(s, a, fds))
  {
  }

  // In every run the clients with a record are those that have logged in and not out.
  lemma {:induction false} RecordsFollowLogins(threadNum: nat, acts: seq<Act>)
    ensures RecordsAre(Run(threadNum, acts), LoggedIn(threadNum, acts))
  {
    if acts != [] {
      hide Advance, RecordsAre, LoggedInNext;
      var front := acts[..|acts| - 1];
      RecordsFollowLogins(threadNum, front);
      StepKeepsRecords(Run(threadNum, front), acts[|acts| - 1], LoggedIn(threadNum, front));
    }
  }
}
