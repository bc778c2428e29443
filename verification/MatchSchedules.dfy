/** Every schedule of the matchmaker's own actions comes to an end, with all requests
    answered. */
module MatchSchedules {
  import opened Matchmaking
  import opened MatchSystem
  import opened MatchHistory
  import opened MatchProgress
  import opened Options

  // ---------------------------------------------------------------- every schedule

  ghost predicate AnswersWithin(h: History, n: nat)
    requires HistoryShaped(h) && n <= CHILD_NUM
  {
    forall c: Turn :: c < n ==> |h.answers[c]| <= Share(|Requests(h.log)|, c) && h.seen[c] <= |h.log|
  }

  // What child c has still to answer and to read.
  ghost function Left(h: History, c: Turn): nat
    requires HistoryShaped(h) && |h.answers[c]| <= Share(|Requests(h.log)|, c) && h.seen[c] <= |h.log|
  {
    Share(|Requests(h.log)|, c) - |h.answers[c]| + (|h.log| - h.seen[c])
  }

  // What the first n children have still to do.
  ghost function ToDo(h: History, n: nat): nat
    requires HistoryShaped(h) && n <= CHILD_NUM && AnswersWithin(h, n)
    decreases n
  {
    if n == 0 then 0 else ToDo(h, n - 1) + Left(h, n - 1)
  }

  // An answer still to be collected can make the server send one more message to each
  // child.
  ghost function Work(h: History): nat
    requires HistoryShaped(h) && AnswersWithin(h, CHILD_NUM) && h.collected <= |Requests(h.log)|
  {
    ToDo(h, CHILD_NUM) + (CHILD_NUM + 1) * (|Requests(h.log)| - h.collected)
  }

  lemma WorkIsDefined(w: World)
    requires Agrees(w)
    ensures AnswersWithin(w.hist, CHILD_NUM) && w.hist.collected <= |Requests(w.hist.log)|
  {
    CollectedAreRequests(w);
    forall c: Turn ensures |w.hist.answers[c]| <= Share(|Requests(w.hist.log)|, c) && w.hist.seen[c] <= |w.hist.log| {
      AnswersFollowRequests(w, c);
    }
  }

  lemma AnswersFollowRequests(w: World, c: Turn)
    requires Agrees(w)
    ensures |w.hist.answers[c]| <= Share(|Requests(w.hist.log)|, c) && w.hist.seen[c] <= |w.hist.log|
  {
    assert ChildAgrees(w.sys, w.hist, c);
    hide AnswersFit, Delivered, Joined, Share;
    MineOfPrefix(w.hist.log, w.hist.seen[c], c);
    MineCount(w.hist.log, c);
  }

  // One child does one thing; the others' work is what it was.
  ghost predicate OneActs(h: History, h': History, c: Turn)
    requires HistoryShaped(h) && HistoryShaped(h')
  {
    && h'.log == h.log && h'.collected == h.collected
    && (forall d: Turn :: d != c ==> h'.answers[d] == h.answers[d] && h'.seen[d] == h.seen[d])
    && |h'.answers[c]| + h'.seen[c] == |h.answers[c]| + h.seen[c] + 1
  }

  lemma LeftBy(h: History, h': History, c: Turn, d: Turn)
    requires HistoryShaped(h) && HistoryShaped(h') && OneActs(h, h', c)
    requires |h.answers[d]| <= Share(|Requests(h.log)|, d) && h.seen[d] <= |h.log|
    requires |h'.answers[d]| <= Share(|Requests(h'.log)|, d) && h'.seen[d] <= |h'.log|
    ensures Left(h', d) == if c == d then Left(h, d) - 1 else Left(h, d)
  {
    hide Share, Requests;
  }

  lemma {:induction false} OneLess(h: History, h': History, c: Turn, n: nat)
    requires HistoryShaped(h) && HistoryShaped(h') && n <= CHILD_NUM && AnswersWithin(h, n) && AnswersWithin(h', n)
    requires OneActs(h, h', c)
    ensures ToDo(h', n) == if c < n then ToDo(h, n) - 1 else ToDo(h, n)
    decreases n
  {
    hide Share, Requests, Left, OneActs;
    if n > 0 {
      OneLess(h, h', c, n - 1);
      LeftBy(h, h', c, n - 1);
    }
  }

  // The log grows by at most one message.
  ghost predicate OneLogged(h: History, h': History) {
    && h'.answers == h.answers && h'.seen == h.seen && |Requests(h'.log)| == |Requests(h.log)|
    && |h'.log| <= |h.log| + 1
  }

  lemma LeftMore(h: History, h': History, d: Turn)
    requires HistoryShaped(h) && HistoryShaped(h') && OneLogged(h, h')
    requires |h.answers[d]| <= Share(|Requests(h.log)|, d) && h.seen[d] <= |h.log|
    requires |h'.answers[d]| <= Share(|Requests(h'.log)|, d) && h'.seen[d] <= |h'.log|
    ensures Left(h', d) <= Left(h, d) + 1
  {
    hide Share, Requests;
  }

  lemma {:induction false} OneMoreToRead(h: History, h': History, n: nat)
    requires HistoryShaped(h) && HistoryShaped(h') && n <= CHILD_NUM && AnswersWithin(h, n) && AnswersWithin(h', n)
    requires OneLogged(h, h')
    ensures ToDo(h', n) <= ToDo(h, n) + n
    decreases n
  {
    hide Share, Requests, Left, OneLogged;
    if n > 0 {
      OneMoreToRead(h, h', n - 1);
      LeftMore(h, h', n - 1);
    }
  }

  lemma ChildActs(w: World, c: Turn, a: Action)
    requires WorldShaped(w) && Enabled(w.sys, a) && (a == ChildMatch(c) || a == ChildInbox(c))
    ensures OneActs(w.hist, Advance(w, a).hist, c)
  {
    hide ChildAnswer;
  }

  lemma ServerActs(w: World)
    requires Agrees(w) && Enabled(w.sys, Collect)
    ensures OneLogged(w.hist, Advance(w, Collect).hist) && Advance(w, Collect).hist.collected == w.hist.collected + 1
  {
    CollectCounts(w);
    hide Agrees, Requests, FirstWaiting;
  }

  // Whatever of the system's own actions comes next, it leaves less to do.
  lemma EachActionLeavesLess(w: World, a: Action)
    requires Agrees(w) && Enabled(w.sys, a) && !a.TryMatch? && !a.Leave?
    requires Agrees(Advance(w, a))
    ensures AnswersWithin(w.hist, CHILD_NUM) && w.hist.collected <= |Requests(w.hist.log)|
    ensures var h' := Advance(w, a).hist;
      && AnswersWithin(h', CHILD_NUM) && h'.collected <= |Requests(h'.log)| == |Requests(w.hist.log)|
      && Work(h') < Work(w.hist)
  {
    var h, h' := w.hist, Advance(w, a).hist;
    hide Agrees, Advance, AnswersWithin, ToDo, Requests, Enabled;
    WorkIsDefined(w);
    WorkIsDefined(Advance(w, a));
    match a
    case Collect =>
      ServerActs(w);
      OneMoreToRead(h, h', CHILD_NUM);
    case ChildMatch(c) =>
      ChildActs(w, c, a);
      OneLess(h, h', c, CHILD_NUM);
    case ChildInbox(c) =>
      ChildActs(w, c, a);
      OneLess(h, h', c, CHILD_NUM);
  }

  // How many of these actions find something to do.
  ghost function Effective(acts: seq<Action>, more: seq<Action>): nat {
    if more == [] then 0
    else
      var front := more[..|more| - 1];
      Effective(acts, front) + if Enabled(Run(acts + front).sys, more[|more| - 1]) then 1 else 0
  }

  ghost function WorkLeft(acts: seq<Action>): nat {
    RunAgrees(acts);
    WorkIsDefined(Run(acts));
    Work(Run(acts).hist)
  }

  // From every reachable state on, under every schedule, the server and its children can
  // do no more than so many things before a client acts again.
  lemma {:induction false} WorkIsBounded(acts: seq<Action>, more: seq<Action>)
    requires Internal(more)
    ensures Effective(acts, more) + WorkLeft(acts + more) <= WorkLeft(acts)
    ensures Requests(Run(acts + more).hist.log) == Requests(Run(acts).hist.log)
  {
    hide Run, Work, Requests, WorkLeft;
    if more == [] {
      assert acts + more == acts;
    } else {
      var front, last := more[..|more| - 1], more[|more| - 1];
      assert acts + more == acts + front + [last];
      assert Internal(front);
      WorkIsBounded(acts, front);
      OneStepOfWork(acts + front, last);
    }
  }

  lemma OneStepOfWork(acts: seq<Action>, a: Action)
    requires !a.TryMatch? && !a.Leave?
    ensures WorkLeft(acts + [a]) + (if Enabled(Run(acts).sys, a) then 1 else 0) <= WorkLeft(acts)
    ensures Requests(Run(acts + [a]).hist.log) == Requests(Run(acts).hist.log)
  {
    hide Run, Work, Requests, AnswersWithin;
    RunOneMore(acts, a);
    RunAgrees(acts);
    RunAgrees(acts + [a]);
    if Enabled(Run(acts).sys, a) {
      EachActionLeavesLess(Run(acts), a);
      SameRequests(Run(acts), a);
    }
  }

  lemma SameRequests(w: World, a: Action)
    requires Agrees(w) && Enabled(w.sys, a) && !a.TryMatch? && !a.Leave?
    ensures Requests(Advance(w, a).hist.log) == Requests(w.hist.log)
  {
    hide Agrees, ChildAnswer, FirstWaiting, Requests;
    if a.Collect? {
      CollectCounts(w);
    }
  }

  // And when they can do nothing more, everything has been answered.
  lemma EveryScheduleAnswersAll(acts: seq<Action>, more: seq<Action>)
    requires Internal(more)
    requires forall a: Action :: !a.TryMatch? && !a.Leave? ==> !Enabled(Run(acts + more).sys, a)
    ensures Effective(acts, more) <= WorkLeft(acts)
    ensures Requests(Run(acts + more).hist.log) == Requests(Run(acts).hist.log)
    ensures Run(acts + more).hist.collected == |Requests(Run(acts).hist.log)|
  {
    hide Run, WorkLeft, Requests;
    WorkIsBounded(acts, more);
    RunAgrees(acts + more);
    var w := Run(acts + more);
    CollectedAreRequests(w);
    assert !Enabled(w.sys, Collect) && !Enabled(w.sys, ChildMatch(w.sys.server.matched));
    assert !Enabled(w.sys, ChildInbox(w.sys.server.matched));
    if w.hist.collected < |Requests(w.hist.log)| {
      SomebodyCanGoOn(w);
    }
  }
}
