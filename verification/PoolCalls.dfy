/** What a call of run_task does, whatever the workers and the other callers do meanwhile:
    it returns after a bounded number of its own steps, nobody holds the dispatch lock for
    good, and it refuses exactly when it found every worker busy. */
module PoolCalls {
  import opened ThreadPool
  import opened Options

  // ---------------------------------------------------------------- it returns

  // How many steps a caller has at most to go, in a pool of n workers.
  ghost function StepsLeft<T>(pc: CallerPc<T>, n: nat): nat {
    match pc
    case Outside => 0
    case Entering(_) => n + 6
    case Scanning(_, i) => if i <= n then n - i + 5 else 5
    case Claiming(_, _) => 4
    case Storing(_, _) => 3
    case Launching(_, _) => 2
    case Leaving(_, _) => 1
  }

  ghost function Left<T>(p: Pool<T>, c: nat): nat
    requires c < |p.callers|
  {
    StepsLeft(p.callers[c], |p.workers|)
  }

  // A step of the caller leaves it fewer to go; nobody else's step changes that.
  lemma StepLeavesFewer<T>(p: Pool<T>, a: Action<T>, c: nat)
    requires Shaped(p) && c < |p.callers| && !(a.CallRunTask? && a.c == c)
    ensures if a == CallerStep(c) && Enabled(p, a) then Left(Next(p, a), c) < Left(p, c)
            else Left(Next(p, a), c) == Left(p, c)
  {
  }

  // How many steps caller c takes in a continuation.
  ghost function StepsOf<T>(threadNum: nat, callerNum: nat, acts: seq<Action<T>>, more: seq<Action<T>>, c: nat): nat {
    if more == [] then 0
    else
      var front, last := more[..|more| - 1], more[|more| - 1];
      StepsOf(threadNum, callerNum, acts, front, c)
      + if last == CallerStep(c) && Enabled(Run(threadNum, callerNum, acts + front), last) then 1 else 0
  }

  ghost predicate DoesNotCall<T>(acts: seq<Action<T>>, c: nat) {
    forall k :: 0 <= k < |acts| ==> !(acts[k].CallRunTask? && acts[k].c == c)
  }

  // From any moment of any run on, and under every schedule, a caller takes no more than
  // so many steps before it calls again, so a call ends after at most threadNum + 6.
  lemma {:induction false} CallIsBounded<T>(threadNum: nat, callerNum: nat, acts: seq<Action<T>>, more: seq<Action<T>>,
                                            c: nat)
    requires c < callerNum && DoesNotCall(more, c)
    ensures StepsOf(threadNum, callerNum, acts, more, c) + Left(Run(threadNum, callerNum, acts + more), c)
            <= Left(Run(threadNum, callerNum, acts), c) <= threadNum + 6
  {
    hide Run, StepsLeft;
    StepsAreFew(Run(threadNum, callerNum, acts), c);
    if more == [] {
      assert acts + more == acts;
    } else {
      var front, last := more[..|more| - 1], more[|more| - 1];
      CallIsBounded(threadNum, callerNum, acts, front, c);
      RunAfter(threadNum, callerNum, acts + front, last);
      assert acts + front + [last] == acts + more;
      StepLeavesFewer(Run(threadNum, callerNum, acts + front), last, c);
    }
  }

  lemma StepsAreFew<T>(p: Pool<T>, c: nat)
    requires Shaped(p) && c < |p.callers|
    ensures Left(p, c) <= |p.workers| + 6 && (Left(p, c) == 0 <==> p.callers[c].Outside?)
  {
  }

  lemma RunAfter<T>(threadNum: nat, callerNum: nat, acts: seq<Action<T>>, a: Action<T>)
    ensures Run(threadNum, callerNum, acts + [a]) == Next(Run(threadNum, callerNum, acts), a)
  {
    assert (acts + [a])[..|acts|] == acts;
  }

  // A caller that cannot go on is waiting for the dispatch lock, and whoever has that can
  // go on.
  lemma LockIsGivenBack<T>(threadNum: nat, callerNum: nat, acts: seq<Action<T>>, c: nat)
    requires c < callerNum
    ensures var p := Run(threadNum, callerNum, acts);
      !p.callers[c].Outside? && !Enabled(p, CallerStep(c)) ==>
        p.callers[c].Entering? && p.holder.Some? && p.holder.value < callerNum
        && Enabled(p, CallerStep(p.holder.value))
  {
    RunIsSound(threadNum, callerNum, acts);
    var p := Run(threadNum, callerNum, acts);
    if p.holder.Some? {
      assert CallerSound(p, p.holder.value);
    }
  }

  // ---------------------------------------------------------------- when it refuses

  // One busy flag is read per step of the scan; a new call starts afresh.
  ghost function FoundNext<T>(p: Pool<T>, a: Action<T>, c: nat, found: seq<bool>): seq<bool>
    requires Shaped(p) && c < |p.callers|
  {
    if !Enabled(p, a) then found
    else if a.CallRunTask? && a.c == c then []
    else if a == CallerStep(c) && p.callers[c].Scanning? && p.callers[c].i < |p.workers| then
      found + [p.workers[p.callers[c].i].busy]
    else found
  }

  // The busy flags the scan of caller c's present call has read so far, in order.
  ghost function Found<T>(threadNum: nat, callerNum: nat, acts: seq<Action<T>>, c: nat): seq<bool>
    requires c < callerNum
  {
    if acts == [] then []
    else
      var front, last := acts[..|acts| - 1], acts[|acts| - 1];
      FoundNext(Run(threadNum, callerNum, front), last, c, Found(threadNum, callerNum, front, c))
  }

  ghost function AllBusy(n: nat): (r: seq<bool>)
    ensures |r| == n
  {
    seq(n, _ => true)
  }

  // What that is, by where the caller is: it stops at the first worker that is not busy.
  ghost predicate FoundFits<T>(pc: CallerPc<T>, found: seq<bool>, n: nat) {
    match pc
    case Outside => true
    case Entering(_) => found == []
    case Scanning(_, i) => i <= n && found == AllBusy(i)
    case Claiming(_, i) => i < n && found == AllBusy(i) + [false]
    case Storing(_, i) => i < n && found == AllBusy(i) + [false]
    case Launching(_, i) => i < n && found == AllBusy(i) + [false]
    case Leaving(_, accepted) =>
      if accepted then 0 < |found| <= n && found == AllBusy(|found| - 1) + [false] else found == AllBusy(n)
  }

  // An accepted task is the newest of the worker that was found free.
  ghost predicate TaskWentTo<T>(p: Pool<T>, c: nat, found: seq<bool>)
    requires Shaped(p) && c < |p.callers|
  {
    p.callers[c].Leaving? && p.callers[c].accepted && 0 < |found| <= |p.workers| ==>
      var given := p.accepted[|found| - 1];
      given != [] && given[|given| - 1] == p.callers[c].task
  }

  lemma AllBusyMore(i: nat)
    ensures AllBusy(i) + [true] == AllBusy(i + 1)
  {
  }

  lemma StepFits<T>(p: Pool<T>, a: Action<T>, c: nat, found: seq<bool>)
    requires Sound(p) && c < |p.callers| && FoundFits(p.callers[c], found, |p.workers|) && TaskWentTo(p, c, found)
    ensures FoundFits(Next(p, a).callers[c], FoundNext(p, a, c, found), |p.workers|)
    ensures TaskWentTo(Next(p, a), c, FoundNext(p, a, c, found))
  {
    hide WorkerSound, HandOff, CallsLast;
    assert CallerSound(p, c);
    if a.CallerStep? && Enabled(p, a) {
      assert CallerSound(p, a.c);
      if a.c == c && p.callers[c].Scanning? {
        AllBusyMore(p.callers[c].i);
      }
    }
  }

  lemma {:induction false} CallFits<T>(threadNum: nat, callerNum: nat, acts: seq<Action<T>>, c: nat)
    requires c < callerNum
    ensures var p, found := Run(threadNum, callerNum, acts), Found(threadNum, callerNum, acts, c);
      FoundFits(p.callers[c], found, threadNum) && TaskWentTo(p, c, found)
  {
    if acts != [] {
      hide Sound, FoundFits, TaskWentTo, Next;
      var front := acts[..|acts| - 1];
      CallFits(threadNum, callerNum, front, c);
      RunIsSound(threadNum, callerNum, front);
      StepFits(Run(threadNum, callerNum, front), acts[|acts| - 1], c, Found(threadNum, callerNum, front, c));
    }
  }

  // In every run: run_task refuses if and only if each of the workers was busy when its
  // scan came to it. Otherwise the task goes to the first that was not.
  lemma RefusedIffAllBusy<T>(threadNum: nat, callerNum: nat, acts: seq<Action<T>>, c: nat)
    requires c < callerNum && Run(threadNum, callerNum, acts).callers[c].Leaving?
    ensures var p, found := Run(threadNum, callerNum, acts), Found(threadNum, callerNum, acts, c);
      && (!p.callers[c].accepted <==> found == AllBusy(threadNum))
      && (p.callers[c].accepted ==>
            && 0 < |found| <= threadNum && found == AllBusy(|found| - 1) + [false]
            && var given := p.accepted[|found| - 1];
               given != [] && given[|given| - 1] == p.callers[c].task)
  {
    CallFits(threadNum, callerNum, acts, c);
    var found := Found(threadNum, callerNum, acts, c);
    assert Run(threadNum, callerNum, acts).callers[c].accepted ==> !found[|found| - 1];
  }

  // ---------------------------------------------------------------- what a worker does

  // How many steps worker w takes in a continuation.
  ghost function WorkerSteps<T>(threadNum: nat, callerNum: nat, acts: seq<Action<T>>, more: seq<Action<T>>,
                                w: nat): nat
  {
    if more == [] then 0
    else
      var front, last := more[..|more| - 1], more[|more| - 1];
      WorkerSteps(threadNum, callerNum, acts, front, w)
      + if last == WorkerStep(w) && Enabled(Run(threadNum, callerNum, acts + front), last) then 1 else 0
  }

  // How far a launched worker is from calling its argument.
  ghost function ToCall<T>(me: Worker<T>): nat {
    if me.pc.Call? then 1 else 2
  }

  // Since p the worker has either called the argument it had, or has it still to call.
  ghost predicate CalledOrPending<T>(p: Pool<T>, p': Pool<T>, w: nat, steps: nat)
    requires Shaped(p) && Shaped(p') && w < |p.workers| == |p'.workers|
  {
    var me, me' := p.workers[w], p'.workers[w];
    if |p'.started[w]| > |p.started[w]| then me.arg == Some(p'.started[w][|p.started[w]|])
    else p'.started[w] == p.started[w] && Pending(me') && me'.arg == me.arg && steps + ToCall(me') <= ToCall(me)
  }

  lemma StepCallsOrKeeps<T>(p: Pool<T>, p': Pool<T>, w: nat, steps: nat, a: Action<T>)
    requires Sound(p') && Shaped(p) && w < |p.workers| == |p'.workers| && CalledOrPending(p, p', w, steps)
    ensures CalledOrPending(p, Next(p', a), w, if a == WorkerStep(w) && Enabled(p', a) then steps + 1 else steps)
  {
    assert WorkerSound(p', w);
    if a.CallerStep? && Enabled(p', a) {
      assert CallerSound(p', a.c);
    }
  }

  lemma {:induction false} PendingIsFollowed<T>(threadNum: nat, callerNum: nat, acts: seq<Action<T>>,
                                                more: seq<Action<T>>, w: nat)
    requires w < threadNum && Pending(Run(threadNum, callerNum, acts).workers[w])
    ensures CalledOrPending(Run(threadNum, callerNum, acts), Run(threadNum, callerNum, acts + more), w,
                            WorkerSteps(threadNum, callerNum, acts, more, w))
  {
    hide Run, Sound;
    if more == [] {
      assert acts + more == acts;
    } else {
      hide CalledOrPending;
      var front, last := more[..|more| - 1], more[|more| - 1];
      PendingIsFollowed(threadNum, callerNum, acts, front, w);
      RunIsSound(threadNum, callerNum, acts + front);
      RunAfter(threadNum, callerNum, acts + front, last);
      assert acts + front + [last] == acts + more;
      StepCallsOrKeeps(Run(threadNum, callerNum, acts), Run(threadNum, callerNum, acts + front), w,
                       WorkerSteps(threadNum, callerNum, acts, front, w), last);
    }
  }

  // A worker with a task pending can always go on, and two steps of its own later it has
  // called that very task, under every schedule.
  lemma LaunchedTaskIsCalled<T>(threadNum: nat, callerNum: nat, acts: seq<Action<T>>, more: seq<Action<T>>, w: nat)
    requires w < threadNum && Pending(Run(threadNum, callerNum, acts).workers[w])
    ensures Enabled(Run(threadNum, callerNum, acts), WorkerStep(w))
    ensures WorkerSteps(threadNum, callerNum, acts, more, w) >= 2 ==>
      var p, p' := Run(threadNum, callerNum, acts), Run(threadNum, callerNum, acts + more);
      |p'.started[w]| > |p.started[w]| && p.workers[w].arg == Some(p'.started[w][|p.started[w]|])
  {
    RunIsSound(threadNum, callerNum, acts);
    assert WorkerSound(Run(threadNum, callerNum, acts), w);
    PendingIsFollowed(threadNum, callerNum, acts, more, w);
  }

  // A worker starting up, or whose task has returned, is not to be given a task yet.
  ghost predicate Occupied<T>(me: Worker<T>) {
    me.pc.Boot? || me.pc.Running? || me.pc.ClearBusy?
  }

  ghost predicate Available<T>(me: Worker<T>) {
    me.pc.Wait? && me.locked && !me.busy
  }

  ghost function ToWait<T>(me: Worker<T>): nat {
    if me.pc.ClearBusy? then 1 else 2
  }

  lemma StepComesNearer<T>(p: Pool<T>, a: Action<T>, w: nat)
    requires Sound(p) && w < |p.workers| && Occupied(p.workers[w])
    ensures Enabled(p, WorkerStep(w))
    ensures var me, me' := p.workers[w], Next(p, a).workers[w];
      if a != WorkerStep(w) then me'.pc == me.pc
      else Available(me') || (Occupied(me') && ToWait(me') < ToWait(me))
  {
    assert WorkerSound(p, w);
    if a.CallerStep? && Enabled(p, a) {
      assert CallerSound(p, a.c);
    }
  }

  // Since acts the worker has been available, or is nearer to it.
  ghost predicate WasAvailable<T>(threadNum: nat, callerNum: nat, acts: seq<Action<T>>, more: seq<Action<T>>, w: nat)
    requires w < threadNum
  {
    exists k :: 0 <= k <= |more| && Available(Run(threadNum, callerNum, acts + more[..k]).workers[w])
  }

  lemma {:induction false} OccupiedIsFollowed<T>(threadNum: nat, callerNum: nat, acts: seq<Action<T>>,
                                                 more: seq<Action<T>>, w: nat)
    requires w < threadNum && Occupied(Run(threadNum, callerNum, acts).workers[w])
    ensures WasAvailable(threadNum, callerNum, acts, more, w)
            || (var me' := Run(threadNum, callerNum, acts + more).workers[w];
                Occupied(me') && WorkerSteps(threadNum, callerNum, acts, more, w) + ToWait(me')
                                 <= ToWait(Run(threadNum, callerNum, acts).workers[w]))
  {
    hide Run, Sound, Available, Next, Enabled;
    if more == [] {
      assert acts + more == acts;
    } else {
      var front, last := more[..|more| - 1], more[|more| - 1];
      OccupiedIsFollowed(threadNum, callerNum, acts, front, w);
      if WasAvailable(threadNum, callerNum, acts, front, w) {
        var k :| 0 <= k <= |front| && Available(Run(threadNum, callerNum, acts + front[..k]).workers[w]);
        assert more[..k] == front[..k];
      } else {
        RunIsSound(threadNum, callerNum, acts + front);
        RunAfter(threadNum, callerNum, acts + front, last);
        assert acts + front + [last] == acts + more && more[..|more|] == more;
        StepComesNearer(Run(threadNum, callerNum, acts + front), last, w);
      }
    }
  }

  // It can always go on, and two steps of its own later run_task has had it available,
  // under every schedule.
  lemma WorkerBecomesAvailable<T>(threadNum: nat, callerNum: nat, acts: seq<Action<T>>, more: seq<Action<T>>, w: nat)
    requires w < threadNum && Occupied(Run(threadNum, callerNum, acts).workers[w])
    ensures Enabled(Run(threadNum, callerNum, acts), WorkerStep(w))
    ensures WorkerSteps(threadNum, callerNum, acts, more, w) >= 2 ==>
            WasAvailable(threadNum, callerNum, acts, more, w)
  {
    hide Run, Sound, Available, Next, Enabled, WasAvailable;
    RunIsSound(threadNum, callerNum, acts);
    StepComesNearer(Run(threadNum, callerNum, acts), WorkerStep(w), w);
    OccupiedIsFollowed(threadNum, callerNum, acts, more, w);
  }
}
