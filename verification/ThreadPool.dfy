/** The task pool: a mutex per worker used as a hand-off semaphore, and an unprotected
    busy flag. Every shared access is one atomic step; any number of callers may be in
    run_task at once. */
module ThreadPool {
  import opened Options

  // Where a worker is in task_thread_func.
  datatype WorkerPc<T> =
    | Boot                // about to take its own lock for the first time
    | ClearBusy           // about to write busy = 0
    | Wait                // about to lock, which blocks until somebody launches it
    | Call                // has the lock, about to read arg and call it
    | Running(task: T)

  // arg is uninitialised memory until the first launch.
  datatype Worker<T> = Worker(pc: WorkerPc<T>, busy: bool, locked: bool, arg: Option<T>)

  // Where a caller is in run_task; Leaving holds the value it is about to return.
  datatype CallerPc<T> =
    | Outside
    | Entering(task: T)
    | Scanning(task: T, i: nat)
    | Claiming(task: T, i: nat)
    | Storing(task: T, i: nat)
    | Launching(task: T, i: nat)
    | Leaving(task: T, accepted: bool)

  // accepted[w] and started[w] record, in order, the tasks launched on worker w and the
  // tasks it has called.
  datatype Pool<T> = Pool(workers: seq<Worker<T>>, callers: seq<CallerPc<T>>, holder: Option<nat>,
                          accepted: seq<seq<T>>, started: seq<seq<T>>)

  datatype Action<T> = CallRunTask(c: nat, task: T) | CallerStep(c: nat) | WorkerStep(w: nat)

  ghost function NewPool<T>(threadNum: nat, callerNum: nat): Pool<T> {
    Pool(seq(threadNum, _ => Worker(Boot, true, false, None)), seq(callerNum, _ => Outside), None,
         seq(threadNum, _ => []), seq(threadNum, _ => []))
  }

  ghost predicate Shaped<T>(p: Pool<T>) {
    && |p.accepted| == |p.started| == |p.workers|
    && forall c :: 0 <= c < |p.callers| ==>
         match p.callers[c]
         case Scanning(_, i) => i <= |p.workers|
         case Claiming(_, i) => i < |p.workers|
         case Storing(_, i) => i < |p.workers|
         case Launching(_, i) => i < |p.workers|
         case _ => true
  }

  ghost predicate Enabled<T>(p: Pool<T>, a: Action<T>) {
    match a
    case CallRunTask(c, _) => c < |p.callers| && p.callers[c].Outside?
    case CallerStep(c) =>
      c < |p.callers| && !p.callers[c].Outside? && (p.callers[c].Entering? ==> p.holder.None?)
    case WorkerStep(w) =>
      w < |p.workers| && (p.workers[w].pc.Boot? || p.workers[w].pc.Wait? ==> !p.workers[w].locked)
                      && (p.workers[w].pc.Call? ==> p.workers[w].arg.Some?)
  }

  ghost function CallerNext<T>(p: Pool<T>, c: nat): Pool<T>
    requires Shaped(p) && Enabled(p, CallerStep(c))
  {
    match p.callers[c]
    case Entering(task) =>
      p.(holder := Some(c), callers := p.callers[c := Scanning(task, 0)])
    case Scanning(task, i) =>
      p.(callers := p.callers[c := if i == |p.workers| then Leaving(task, false)
                                   else if !p.workers[i].busy then Claiming(task, i)
                                   else Scanning(task, i + 1)])
    case Claiming(task, i) =>
      p.(workers := p.workers[i := p.workers[i].(busy := true)], callers := p.callers[c := Storing(task, i)])
    case Storing(task, i) =>
      p.(workers := p.workers[i := p.workers[i].(arg := Some(task))], callers := p.callers[c := Launching(task, i)])
    case Launching(task, i) =>
      p.(workers := p.workers[i := p.workers[i].(locked := false)], callers := p.callers[c := Leaving(task, true)],
         accepted := p.accepted[i := p.accepted[i] + [task]])
    case Leaving(_, _) =>
      p.(holder := None, callers := p.callers[c := Outside])
    case Outside => p
  }

  ghost function WorkerNext<T>(p: Pool<T>, w: nat): Pool<T>
    requires Shaped(p) && Enabled(p, WorkerStep(w))
  {
    var me := p.workers[w];
    match me.pc
    case Boot => p.(workers := p.workers[w := me.(locked := true, pc := ClearBusy)])
    case ClearBusy => p.(workers := p.workers[w := me.(busy := false, pc := Wait)])
    case Wait => p.(workers := p.workers[w := me.(locked := true, pc := Call)])
    case Call =>
      p.(workers := p.workers[w := me.(pc := Running(me.arg.value))],
         started := p.started[w := p.started[w] + [me.arg.value]])
    case Running(_) => p.(workers := p.workers[w := me.(pc := ClearBusy)])
  }

  ghost function Next<T>(p: Pool<T>, a: Action<T>): (p': Pool<T>)
    requires Shaped(p)
    ensures Shaped(p') && |p'.workers| == |p.workers| && |p'.callers| == |p.callers|
  {
    if !Enabled(p, a) then p
    else
      match a
      case CallRunTask(c, task) => p.(callers := p.callers[c := Entering(task)])
      case CallerStep(c) => CallerNext(p, c)
      case WorkerStep(w) => WorkerNext(p, w)
  }

  ghost function Run<T>(threadNum: nat, callerNum: nat, acts: seq<Action<T>>): (p: Pool<T>)
    ensures Shaped(p) && |p.workers| == threadNum && |p.callers| == callerNum
  {
    if acts == [] then NewPool(threadNum, callerNum)
    else Next(Run(threadNum, callerNum, acts[..|acts| - 1]), acts[|acts| - 1])
  }

  // ---------------------------------------------------------------- invariant

  ghost predicate Inside<T>(pc: CallerPc<T>) {
    !pc.Outside? && !pc.Entering?
  }

  // Worker w has been picked by the caller inside run_task and not yet launched.
  ghost predicate Claimed<T>(p: Pool<T>, w: nat) {
    && p.holder.Some? && p.holder.value < |p.callers|
    && (p.callers[p.holder.value].Storing? || p.callers[p.holder.value].Launching?)
    && p.callers[p.holder.value].i == w
  }

  // Launched but not yet called.
  ghost predicate Pending<T>(me: Worker<T>) {
    (me.pc.Wait? && !me.locked) || me.pc.Call?
  }

  ghost predicate WorkerSound<T>(p: Pool<T>, w: nat)
    requires w < |p.workers|
  {
    var me := p.workers[w];
    match me.pc
    case Boot => me.busy && !me.locked
    case ClearBusy => me.busy && me.locked
    case Wait => if me.locked then (me.busy <==> Claimed(p, w)) else me.busy && me.arg.Some?
    case Call => me.busy && me.locked && me.arg.Some?
    case Running(_) => me.busy && me.locked
  }

  ghost predicate CallerSound<T>(p: Pool<T>, c: nat)
    requires Shaped(p) && c < |p.callers|
  {
    && (Inside(p.callers[c]) <==> p.holder == Some(c))
    && match p.callers[c]
       case Claiming(_, i) => !p.workers[i].busy
       case Storing(_, i) => p.workers[i].pc.Wait? && p.workers[i].locked
       case Launching(task, i) => p.workers[i].pc.Wait? && p.workers[i].locked && p.workers[i].arg == Some(task)
       case _ => true
  }

  // What worker w was given is what it has called, in the same order, and then what it
  // is still to call.
  ghost predicate HandOff<T>(p: Pool<T>, w: nat)
    requires Shaped(p) && w < |p.workers|
  {
    var me := p.workers[w];
    if Pending(me) then me.arg.Some? && p.accepted[w] == p.started[w] + [me.arg.value]
    else p.accepted[w] == p.started[w]
  }

  ghost predicate CallsLast<T>(p: Pool<T>, w: nat)
    requires Shaped(p) && w < |p.workers|
  {
    p.workers[w].pc.Running? ==>
      p.started[w] != [] && p.started[w][|p.started[w]| - 1] == p.workers[w].pc.task
  }

  ghost predicate Sound<T>(p: Pool<T>) {
    && Shaped(p)
    && (p.holder.Some? ==> p.holder.value < |p.callers|)
    && (forall c :: 0 <= c < |p.callers| ==> CallerSound(p, c))
    && (forall w :: 0 <= w < |p.workers| ==> WorkerSound(p, w) && HandOff(p, w) && CallsLast(p, w))
  }

  lemma CallersFollowCaller<T>(p: Pool<T>, c: nat, d: nat)
    requires Sound(p) && Enabled(p, CallerStep(c)) && d < |p.callers|
    ensures CallerSound(CallerNext(p, c), d)
  {
    hide HandOff, CallsLast;
    assert CallerSound(p, c) && CallerSound(p, d);
    assert p.callers[c].Claiming? ==> WorkerSound(p, p.callers[c].i);
  }

  lemma WorkersFollowCaller<T>(p: Pool<T>, c: nat, w: nat)
    requires Sound(p) && Enabled(p, CallerStep(c)) && w < |p.workers|
    ensures var p' := CallerNext(p, c); WorkerSound(p', w) && HandOff(p', w) && CallsLast(p', w)
  {
    assert CallerSound(p, c);
    assert WorkerSound(p, w) && HandOff(p, w) && CallsLast(p, w);
  }

  lemma CallerStepKeepsSound<T>(p: Pool<T>, c: nat)
    requires Sound(p) && Enabled(p, CallerStep(c))
    ensures Sound(CallerNext(p, c))
  {
    hide WorkerSound, CallerSound, HandOff, CallsLast;
    var p' := CallerNext(p, c);
    forall d | 0 <= d < |p.callers| ensures CallerSound(p', d) {
      CallersFollowCaller(p, c, d);
    }
    forall w | 0 <= w < |p.workers| ensures WorkerSound(p', w) && HandOff(p', w) && CallsLast(p', w) {
      WorkersFollowCaller(p, c, w);
    }
  }

  lemma CallersFollowWorker<T>(p: Pool<T>, v: nat, d: nat)
    requires Sound(p) && Enabled(p, WorkerStep(v)) && d < |p.callers|
    ensures CallerSound(WorkerNext(p, v), d)
  {
    hide HandOff, CallsLast;
    assert WorkerSound(p, v) && CallerSound(p, d);
  }

  lemma WorkersFollowWorker<T>(p: Pool<T>, v: nat, w: nat)
    requires Sound(p) && Enabled(p, WorkerStep(v)) && w < |p.workers|
    ensures var p' := WorkerNext(p, v); WorkerSound(p', w) && HandOff(p', w) && CallsLast(p', w)
  {
    assert WorkerSound(p, v) && HandOff(p, v);
    assert p.holder.Some? ==> CallerSound(p, p.holder.value);
    assert WorkerSound(p, w) && HandOff(p, w) && CallsLast(p, w);
  }

  lemma WorkerStepKeepsSound<T>(p: Pool<T>, v: nat)
    requires Sound(p) && Enabled(p, WorkerStep(v))
    ensures Sound(WorkerNext(p, v))
  {
    hide WorkerSound, CallerSound, HandOff, CallsLast;
    var p' := WorkerNext(p, v);
    forall d | 0 <= d < |p.callers| ensures CallerSound(p', d) {
      CallersFollowWorker(p, v, d);
    }
    forall w | 0 <= w < |p.workers| ensures WorkerSound(p', w) && HandOff(p', w) && CallsLast(p', w) {
      WorkersFollowWorker(p, v, w);
    }
  }

  lemma NextKeepsSound<T>(p: Pool<T>, a: Action<T>)
    requires Sound(p)
    ensures Sound(Next(p, a))
  {
    if Enabled(p, a) {
      match a
      case CallRunTask(c, task) =>
        var p' := Next(p, a);
        forall d | 0 <= d < |p.callers| ensures CallerSound(p', d) {
          assert CallerSound(p, d) && CallerSound(p, c);
        }
        forall w | 0 <= w < |p.workers| ensures WorkerSound(p', w) && HandOff(p', w) && CallsLast(p', w) {
          assert WorkerSound(p, w) && HandOff(p, w) && CallsLast(p, w);
          assert CallerSound(p, c);
        }
      case CallerStep(c) => CallerStepKeepsSound(p, c);
      case WorkerStep(w) => WorkerStepKeepsSound(p, w);
    }
  }

  lemma {:induction false} RunIsSound<T>(threadNum: nat, callerNum: nat, acts: seq<Action<T>>)
    ensures Sound(Run(threadNum, callerNum, acts))
  {
    if acts != [] {
      RunIsSound(threadNum, callerNum, acts[..|acts| - 1]);
      NextKeepsSound(Run(threadNum, callerNum, acts[..|acts| - 1]), acts[|acts| - 1]);
    }
  }

  // ---------------------------------------------------------------- exactly once

  ghost function Total<T>(histories: seq<seq<T>>): multiset<T> {
    if histories == [] then multiset{} else multiset(histories[0]) + Total(histories[1..])
  }

  ghost function PendingTasks<T>(workers: seq<Worker<T>>): multiset<T> {
    if workers == [] then multiset{}
    else (if Pending(workers[0]) && workers[0].arg.Some? then multiset{workers[0].arg.value} else multiset{})
         + PendingTasks(workers[1..])
  }

  lemma {:induction false} TotalsBalance<T>(workers: seq<Worker<T>>, accepted: seq<seq<T>>, started: seq<seq<T>>)
    requires |workers| == |accepted| == |started|
    requires forall w :: 0 <= w < |workers| ==>
      if Pending(workers[w]) then workers[w].arg.Some? && accepted[w] == started[w] + [workers[w].arg.value]
      else accepted[w] == started[w]
    ensures Total(accepted) == Total(started) + PendingTasks(workers)
  {
    if workers != [] {
      TotalsBalance(workers[1..], accepted[1..], started[1..]);
    }
  }

  // In every interleaving: the tasks run_task accepted are the tasks that were called
  // plus the tasks still waiting to be called, each counted as often as it was handed in.
  lemma ExactlyOnce<T>(threadNum: nat, callerNum: nat, acts: seq<Action<T>>)
    ensures var p := Run(threadNum, callerNum, acts);
      Total(p.accepted) == Total(p.started) + PendingTasks(p.workers)
  {
    var p := Run(threadNum, callerNum, acts);
    RunIsSound(threadNum, callerNum, acts);
    forall w | 0 <= w < |p.workers|
      ensures if Pending(p.workers[w]) then
                p.workers[w].arg.Some? && p.accepted[w] == p.started[w] + [p.workers[w].arg.value]
              else p.accepted[w] == p.started[w]
    {
      assert HandOff(p, w);
    }
    TotalsBalance(p.workers, p.accepted, p.started);
  }

  // A pending argument stays put until its own worker calls it.
  lemma PendingArgumentIsKept<T>(p: Pool<T>, a: Action<T>, w: nat)
    requires Sound(p) && w < |p.workers| && Pending(p.workers[w])
    ensures var me, me' := p.workers[w], Next(p, a).workers[w];
      me'.arg == me.arg && (Pending(me') || (me.arg.Some? && me'.pc == Running(me.arg.value)))
  {
    assert WorkerSound(p, w);
    if a.CallerStep? && Enabled(p, a) {
      assert CallerSound(p, a.c);
    }
  }

  // A worker that waits is either free for the next caller, already launched, or in the
  // hands of exactly the caller inside run_task: none is ever lost.
  lemma WaitingWorkerIsNotLost<T>(threadNum: nat, callerNum: nat, acts: seq<Action<T>>, w: nat)
    requires w < threadNum
    ensures var p := Run(threadNum, callerNum, acts);
      p.workers[w].pc.Wait? ==> !p.workers[w].busy || Pending(p.workers[w]) || Claimed(p, w)
  {
    RunIsSound(threadNum, callerNum, acts);
    assert WorkerSound(Run(threadNum, callerNum, acts), w);
  }
}
