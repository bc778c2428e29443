/** When two workers can have the same connection: exactly when the main loop hands out
    one whose client record was replaced or dropped while a worker still had it. */
module ConnectionOwners {
  import opened FileServer
  import opened Options
  import ThreadPool

  // ---------------------------------------------------------------- who has a connection

  ghost predicate Owed(s: Server, fd: Fd)
    requires Formed(s)
  {
    exists w :: 0 <= w < |s.pool.workers| && Owes(s, w) == Some(fd)
  }

  ghost predicate Held(s: Server, fd: Fd)
    requires Formed(s)
  {
    InHand(s, fd) || Owed(s, fd)
  }

  ghost predicate Apart(s: Server, v: nat, w: nat)
    requires Formed(s) && v < |s.pool.workers| && w < |s.pool.workers|
  {
    v != w && Owes(s, v).Some? ==> Owes(s, v) != Owes(s, w)
  }

  // No two workers have one connection, and none has the one the main thread is handing
  // out.
  ghost predicate OneEach(s: Server)
    requires Formed(s)
  {
    && (forall v, w :: 0 <= v < |s.pool.workers| && 0 <= w < |s.pool.workers| ==> Apart(s, v, w))
    && (forall fd: Fd :: InHand(s, fd) ==> !Owed(s, fd))
  }

  // The connection whose record an action replaces or drops.
  ghost function Touched(s: Server, a: Act): set<Fd>
    requires Formed(s)
  {
    if !Possible(s, a) then {}
    else
      match a
      case MainLogin(fd) => {fd}
      case MainLogout(fd) => {fd}
      case WorkerLogin(w) => {s.pool.workers[w].pc.task}
      case WorkerLogout(w) => {s.pool.workers[w].pc.task}
      case _ => {}
  }

  // Connections that have lost their record since somebody got them who has them still.
  ghost function Reset(threadNum: nat, acts: seq<Act>): set<Fd> {
    if acts == [] then {}
    else
      var front, last := acts[..|acts| - 1], acts[|acts| - 1];
      StillHeld(Run(threadNum, acts), Reset(threadNum, front) + Touched(Run(threadNum, front), last))
  }

  ghost function StillHeld(s: Server, fds: set<Fd>): set<Fd>
    requires Formed(s)
  {
    set fd | fd in fds && Held(s, fd)
  }

  // ---------------------------------------------------------------- invariant

  // Whoever is held and has kept its record has its flag up and is not to be handed out.
  ghost predicate Protected(s: Server, reset: set<Fd>, fd: Fd)
    requires Formed(s)
  {
    Held(s, fd) && fd !in reset ==> s.clients[fd] == Some(true) && fd !in s.ready
  }

  ghost predicate Kept(s: Server, reset: set<Fd>) {
    && Formed(s) && Good(s) && OneEach(s)
    && (forall fd: Fd :: Protected(s, reset, fd))
    && (forall fd: Fd :: fd in reset ==> Held(s, fd))
  }

  ghost predicate Clean(reset: set<Fd>, a: Act) {
    a.Dispatch? ==> a.fd !in reset
  }

  ghost function Resets(s: Server, reset: set<Fd>, a: Act): set<Fd>
    requires Formed(s)
  {
    StillHeld(Advance(s, a), reset + Touched(s, a))
  }

  lemma SameOwners(s: Server, s': Server)
    requires Formed(s) && Formed(s') && OneEach(s) && |s'.pool.workers| == |s.pool.workers|
    requires forall w :: 0 <= w < |s.pool.workers| ==> Owes(s', w) == Owes(s, w)
    requires forall fd: Fd :: InHand(s', fd) <==> InHand(s, fd)
    ensures OneEach(s') && forall fd: Fd :: (Owed(s', fd) <==> Owed(s, fd))
  {
    hide Owes, InHand;
    forall v, w | 0 <= v < |s.pool.workers| && 0 <= w < |s.pool.workers| ensures Apart(s', v, w) {
      assert Apart(s, v, w);
    }
    forall fd: Fd ensures Owed(s', fd) <==> Owed(s, fd) {
      if Owed(s, fd) {
        var w :| 0 <= w < |s.pool.workers| && Owes(s, w) == Some(fd);
        assert Owes(s', w) == Some(fd);
      }
    }
  }

  // A step that changes neither owners nor flags except of connections it touches.
  lemma HoldersStay(s: Server, s': Server, reset: set<Fd>, touched: set<Fd>)
    requires Kept(s, reset) && Formed(s') && Good(s') && OneEach(s')
    requires forall fd: Fd :: Held(s', fd) <==> Held(s, fd)
    requires forall fd: Fd :: Held(s, fd) && fd !in touched && s.clients[fd] == Some(true) ==>
               s'.clients[fd] == Some(true) && (fd !in s.ready ==> fd !in s'.ready)
    ensures Kept(s', StillHeld(s', reset + touched))
  {
    hide Held, Good, OneEach;
    forall fd: Fd ensures Protected(s', StillHeld(s', reset + touched), fd) {
      assert Protected(s, reset, fd);
    }
  }

  lemma RecordsChange(s: Server, reset: set<Fd>, a: Act)
    requires Kept(s, reset) && Possible(s, a)
    requires a.MainLogin? || a.MainLogout? || a.WorkerLogin? || a.WorkerLogout? || a.Scan? || a.Again?
    ensures Kept(Advance(s, a), Resets(s, reset, a))
  {
    var s' := Advance(s, a);
    AdvanceKeepsGood(s, a);
    hide Good;
    assert s'.pool == s.pool && s'.cleared == s.cleared;
    assert forall w :: 0 <= w < |s.pool.workers| ==> Owes(s', w) == Owes(s, w);
    SameOwners(s, s');
    HoldersStay(s, s', reset, Touched(s, a));
  }

  // Lowering its flag, a worker gives its connection back; so does the main thread when
  // no worker was free.
  lemma OneGivesBack(s: Server, s': Server, reset: set<Fd>, mine: Fd)
    requires Kept(s, reset) && Formed(s') && Good(s') && OneEach(s')
    requires !Held(s', mine) && forall fd: Fd :: fd != mine ==> (Held(s', fd) <==> Held(s, fd))
    requires forall fd: Fd :: fd != mine ==> s'.clients[fd] == s.clients[fd]
    requires s'.ready == s.ready
    ensures Kept(s', StillHeld(s', reset))
  {
    hide Held, Good, OneEach;
    forall fd: Fd ensures Protected(s', StillHeld(s', reset), fd) {
      assert Protected(s, reset, fd);
    }
  }

  lemma ClearKept(s: Server, reset: set<Fd>, w: nat)
    requires Kept(s, reset) && Possible(s, CheckAndClear(w))
    ensures Kept(Advance(s, CheckAndClear(w)), Resets(s, reset, CheckAndClear(w)))
  {
    var s', mine := Advance(s, CheckAndClear(w)), s.pool.workers[w].pc.task;
    AdvanceKeepsGood(s, CheckAndClear(w));
    hide Good;
    assert Owes(s, w) == Some(mine) && Owes(s', w) == None;
    assert forall v :: 0 <= v < |s.pool.workers| && v != w ==> Owes(s', v) == Owes(s, v);
    OneOwnerLess(s, s', w, mine);
    OneGivesBack(s, s', reset, mine);
    assert reset + {} == reset;
  }

  lemma OneOwnerLess(s: Server, s': Server, w: nat, mine: Fd)
    requires Formed(s) && Formed(s') && OneEach(s) && |s'.pool.workers| == |s.pool.workers| && w < |s.pool.workers|
    requires Owes(s, w) == Some(mine) && Owes(s', w) == None
    requires forall v :: 0 <= v < |s.pool.workers| && v != w ==> Owes(s', v) == Owes(s, v)
    requires forall fd: Fd :: InHand(s', fd) <==> InHand(s, fd)
    ensures OneEach(s') && !Held(s', mine) && forall fd: Fd :: fd != mine ==> (Held(s', fd) <==> Held(s, fd))
  {
    hide Owes, InHand;
    forall u, v | 0 <= u < |s.pool.workers| && 0 <= v < |s.pool.workers| ensures Apart(s', u, v) {
      assert Apart(s, u, v);
    }
    assert Owed(s, mine);
    forall v | 0 <= v < |s.pool.workers| ensures Owes(s', v) != Some(mine) {
      assert Apart(s, w, v);
    }
    forall fd: Fd | fd != mine ensures Owed(s', fd) <==> Owed(s, fd) {
      if Owed(s, fd) {
        var v :| 0 <= v < |s.pool.workers| && Owes(s, v) == Some(fd);
        assert Owes(s', v) == Some(fd);
      }
    }
  }

  lemma TakeBackKept(s: Server, reset: set<Fd>)
    requires Kept(s, reset) && Possible(s, TakeBack)
    ensures Kept(Advance(s, TakeBack), Resets(s, reset, TakeBack))
  {
    var s', mine := Advance(s, TakeBack), s.main.fd;
    AdvanceKeepsGood(s, TakeBack);
    hide Good;
    assert forall w :: 0 <= w < |s.pool.workers| ==> Owes(s', w) == Owes(s, w);
    assert InHand(s, mine) && forall fd: Fd :: !InHand(s', fd);
    NothingInHand(s, s', mine);
    OneGivesBack(s, s', reset, mine);
    assert reset + {} == reset;
  }

  lemma NothingInHand(s: Server, s': Server, mine: Fd)
    requires Formed(s) && Formed(s') && OneEach(s) && |s'.pool.workers| == |s.pool.workers|
    requires forall w :: 0 <= w < |s.pool.workers| ==> Owes(s', w) == Owes(s, w)
    requires InHand(s, mine) && (forall fd: Fd :: InHand(s, fd) ==> fd == mine) && forall fd: Fd :: !InHand(s', fd)
    ensures OneEach(s') && !Held(s', mine) && forall fd: Fd :: fd != mine ==> (Held(s', fd) <==> Held(s, fd))
  {
    hide Owes, InHand;
    forall u, v | 0 <= u < |s.pool.workers| && 0 <= v < |s.pool.workers| ensures Apart(s', u, v) {
      assert Apart(s, u, v);
    }
    forall fd: Fd ensures Owed(s', fd) <==> Owed(s, fd) {
      if Owed(s, fd) {
        var v :| 0 <= v < |s.pool.workers| && Owes(s, v) == Some(fd);
        assert Owes(s', v) == Some(fd);
      }
    }
  }

  lemma PoolKept(s: Server, reset: set<Fd>, w: nat)
    requires Kept(s, reset) && Possible(s, PoolStep(w))
    ensures Kept(Advance(s, PoolStep(w)), Resets(s, reset, PoolStep(w)))
  {
    var s' := Advance(s, PoolStep(w));
    AdvanceKeepsGood(s, PoolStep(w));
    forall v | 0 <= v < |s.pool.workers| ensures Owes(s', v) == Owes(s, v) {
      assert ThreadPool.WorkerSound(s.pool, w);
    }
    hide Good;
    SameOwners(s, s');
    HoldersStay(s, s', reset, {});
  }

  lemma Launched(s: Server, v: nat)
    requires Good(s) && Possible(s, RunTask) && v < |s.pool.workers|
    ensures var pc, s' := s.pool.callers[0], Advance(s, RunTask);
      Owes(s', v) == if pc.Launching? && pc.i == v then Some(s.main.fd) else Owes(s, v)
    ensures var pc := s.pool.callers[0]; pc.Launching? ==> pc.i < |s.pool.workers| && Owes(s, pc.i) == None
  {
    assert ThreadPool.CallerSound(s.pool, 0) && ThreadPool.WorkerSound(s.pool, v);
  }

  lemma RunTaskKept(s: Server, reset: set<Fd>)
    requires Kept(s, reset) && Possible(s, RunTask)
    ensures Kept(Advance(s, RunTask), Resets(s, reset, RunTask))
  {
    var s', pc, mine := Advance(s, RunTask), s.pool.callers[0], s.main.fd;
    AdvanceKeepsGood(s, RunTask);
    forall v | 0 <= v < |s.pool.workers|
      ensures Owes(s', v) == if pc.Launching? && pc.i == v then Some(mine) else Owes(s, v)
    {
      Launched(s, v);
    }
    assert forall fd: Fd :: InHand(s', fd) <==> InHand(s, fd) && !pc.Launching?;
    if pc.Launching? {
      Launched(s, pc.i);
      assert InHand(s, mine) && forall fd: Fd :: InHand(s, fd) ==> fd == mine;
      OneOwnerMore(s, s', pc.i, mine);
    } else {
      SameOwners(s, s');
    }
    hide Good;
    HoldersStay(s, s', reset, {});
  }

  lemma OneOwnerMore(s: Server, s': Server, w: nat, mine: Fd)
    requires Formed(s) && Formed(s') && OneEach(s) && |s'.pool.workers| == |s.pool.workers| && w < |s.pool.workers|
    requires Owes(s, w) == None
    requires forall v :: 0 <= v < |s.pool.workers| ==> Owes(s', v) == if v == w then Some(mine) else Owes(s, v)
    requires InHand(s, mine) && (forall fd: Fd :: InHand(s, fd) ==> fd == mine) && forall fd: Fd :: !InHand(s', fd)
    ensures OneEach(s') && forall fd: Fd :: (Held(s', fd) <==> Held(s, fd))
  {
    hide Owes, InHand;
    assert !Owed(s, mine);
    forall u, v | 0 <= u < |s.pool.workers| && 0 <= v < |s.pool.workers| ensures Apart(s', u, v) {
      assert Apart(s, u, v);
    }
    assert Owes(s', w) == Some(mine);
    forall fd: Fd ensures Held(s', fd) <==> Held(s, fd) {
      if Owed(s, fd) {
        var v :| 0 <= v < |s.pool.workers| && Owes(s, v) == Some(fd);
        assert Owes(s', v) == Some(fd);
      }
      if Owed(s', fd) && fd != mine {
        var v :| 0 <= v < |s.pool.workers| && Owes(s', v) == Some(fd);
        assert Owes(s, v) == Some(fd);
      }
    }
  }

  // ---------------------------------------------------------------- handing out

  lemma DispatchOwners(s: Server, fd: Fd)
    requires Good(s) && Possible(s, Dispatch(fd))
    ensures var s' := Advance(s, Dispatch(fd));
      && (forall w :: 0 <= w < |s.pool.workers| ==> Owes(s', w) == Owes(s, w))
      && (forall f: Fd :: !InHand(s, f)) && (forall f: Fd :: InHand(s', f) <==> f == fd)
      && (forall f: Fd :: Owed(s', f) <==> Owed(s, f))
  {
    var s' := Advance(s, Dispatch(fd));
    assert forall w :: 0 <= w < |s.pool.workers| ==> Owes(s', w) == Owes(s, w);
    hide Owes, Good;
    forall f: Fd ensures Owed(s', f) <==> Owed(s, f) {
      if Owed(s, f) {
        var w :| 0 <= w < |s.pool.workers| && Owes(s, w) == Some(f);
        assert Owes(s', w) == Some(f);
      }
    }
  }

  // Handing out a connection somebody has breaks the rule, and only that does.
  lemma DispatchIff(s: Server, reset: set<Fd>, fd: Fd)
    requires Kept(s, reset) && Possible(s, Dispatch(fd))
    ensures OneEach(Advance(s, Dispatch(fd))) <==> fd !in reset
    ensures fd !in reset ==> Kept(Advance(s, Dispatch(fd)), Resets(s, reset, Dispatch(fd)))
  {
    var s' := Advance(s, Dispatch(fd));
    AdvanceKeepsGood(s, Dispatch(fd));
    DispatchOwners(s, fd);
    hide Good, Owes, InHand;
    assert Protected(s, reset, fd);
    assert Held(s, fd) <==> Owed(s, fd);
    assert fd in s.ready;
    if fd !in reset {
      assert !Owed(s, fd);
      forall v, w | 0 <= v < |s.pool.workers| && 0 <= w < |s.pool.workers| ensures Apart(s', v, w) {
        assert Apart(s, v, w);
      }
      forall f: Fd ensures Protected(s', Resets(s, reset, Dispatch(fd)), f) {
        assert Protected(s, reset, f);
      }
    } else {
      assert Owed(s', fd) && InHand(s', fd);
    }
  }

  lemma StepKept(s: Server, reset: set<Fd>, a: Act)
    requires Kept(s, reset)
    ensures OneEach(Advance(s, a)) <==> (Possible(s, a) ==> Clean(reset, a))
    ensures OneEach(Advance(s, a)) ==> Kept(Advance(s, a), Resets(s, reset, a))
  {
    hide Good, OneEach, Protected, Owes, InHand;
    if !Possible(s, a) {
      assert StillHeld(s, reset + {}) == reset;
    } else {
      match a
      case Dispatch(fd) => DispatchIff(s, reset, fd);
      case RunTask => RunTaskKept(s, reset);
      case TakeBack => TakeBackKept(s, reset);
      case CheckAndClear(w) => ClearKept(s, reset, w);
      case PoolStep(w) => PoolKept(s, reset, w);
      case _ => RecordsChange(s, reset, a);
    }
  }

  // ---------------------------------------------------------------- every run

  ghost predicate AlwaysOneEach(threadNum: nat, acts: seq<Act>) {
    OneEach(Run(threadNum, acts)) && (acts == [] || AlwaysOneEach(threadNum, acts[..|acts| - 1]))
  }

  // The main loop never hands out a connection that lost its record while it was held.
  ghost predicate HandsOutClean(threadNum: nat, acts: seq<Act>) {
    acts == [] ||
    var front, last := acts[..|acts| - 1], acts[|acts| - 1];
    && HandsOutClean(threadNum, front)
    && (Possible(Run(threadNum, front), last) ==> Clean(Reset(threadNum, front), last))
  }

  lemma NewServerIsKept(threadNum: nat)
    ensures Kept(NewServer(threadNum), {})
  {
    RunIsGood(threadNum, []);
    assert Run(threadNum, []) == NewServer(threadNum);
    hide Good;
    assert forall w :: 0 <= w < threadNum ==> Owes(NewServer(threadNum), w) == None;
  }

  // In every run: at every moment no two workers have one connection, and the main thread
  // hands out none that a worker has, if and only if it never hands out one whose record
  // a login or logout replaced or dropped while it was held.
  lemma {:induction false} OneWorkerEachIff(threadNum: nat, acts: seq<Act>)
    ensures AlwaysOneEach(threadNum, acts) <==> HandsOutClean(threadNum, acts)
    ensures AlwaysOneEach(threadNum, acts) ==> Kept(Run(threadNum, acts), Reset(threadNum, acts))
  {
    hide Good, OneEach, Protected, Held, Possible, Advance;
    NewServerIsKept(threadNum);
    if acts != [] {
      hide Kept;
      var front := acts[..|acts| - 1];
      OneWorkerEachIff(threadNum, front);
      if AlwaysOneEach(threadNum, front) {
        StepKept(Run(threadNum, front), Reset(threadNum, front), acts[|acts| - 1]);
      }
    }
  }
}
