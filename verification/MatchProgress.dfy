/** The matchmaker does not get stuck: whatever has been asked can be answered, and when
    nothing is left to do everything has been. */
module MatchProgress {
  import opened Matchmaking
  import opened MatchSystem
  import opened MatchHistory
  import opened MatchPairing
  import opened MatchSequential
  import opened Options

  // ---------------------------------------------------------------- who can go on

  lemma ShareGrows(k: nat, n: nat, c: Turn)
    requires k <= n
    ensures Share(k, c) <= Share(n, c)
  {
  }

  // A child that has read everything and answered everything has answered every request
  // dealt to it.
  lemma IdleChildHasAnswered(w: World, c: Turn)
    requires Agrees(w) && w.sys.inbox[c] == [] && w.sys.children[c].matchQueue == []
    ensures |w.hist.answers[c]| == Share(|Requests(w.hist.log)|, c)
  {
    hide Answered;
    assert ChildAgrees(w.sys, w.hist, c);
    assert w.hist.log[..w.hist.seen[c]] == w.hist.log;
    MineCount(w.hist.log, c);
  }

  // As long as an answer is missing, the server can read one, or the child it waits for
  // has something to do.
  lemma SomebodyCanGoOn(w: World)
    requires Agrees(w) && w.hist.collected < |Requests(w.hist.log)|
    ensures var c := w.sys.server.matched;
      Enabled(w.sys, Collect) || w.sys.children[c].matchQueue != [] || w.sys.inbox[c] != []
  {
    hide ChildAgrees;
    var c := w.sys.server.matched;
    if w.sys.inbox[c] == [] && w.sys.children[c].matchQueue == [] {
      IdleChildHasAnswered(w, c);
      ShareSteps(w.hist.collected, c);
      ShareGrows(w.hist.collected + 1, |Requests(w.hist.log)|, c);
      PendingAnswerIsReadable(w);
    }
  }

  lemma PendingAnswerIsReadable(w: World)
    requires Agrees(w) && Share(w.hist.collected, w.sys.server.matched) < |w.hist.answers[w.sys.server.matched]|
    ensures Enabled(w.sys, Collect)
  {
    hide Share;
    var c := w.sys.server.matched;
    var m := Share(w.hist.collected, c);
    assert ChildAgrees(w.sys, w.hist, c);
    assert Answered(w.hist.log, w.hist.views[c][m], w.hist.answers[c][m], m, c);
    assert w.hist.answers[c][m..][0] == w.hist.answers[c][m];
    NextGroup(w);
  }

  lemma NeverStuck(acts: seq<Action>)
    ensures var w := Run(acts);
      var c := w.sys.server.matched;
      w.hist.collected < |Requests(w.hist.log)| ==>
        Enabled(w.sys, Collect) || w.sys.children[c].matchQueue != [] || w.sys.inbox[c] != []
  {
    RunAgrees(acts);
    if Run(acts).hist.collected < |Requests(Run(acts).hist.log)| {
      SomebodyCanGoOn(Run(acts));
    }
  }

  lemma ShareTellsMore(n: nat, k: nat, c: Turn)
    requires c == n % CHILD_NUM
    ensures k > n ==> Share(k, c) > Share(n, c)
  {
    ShareSteps(n, c);
  }

  lemma CollectedAreRequests(w: World)
    requires Agrees(w)
    ensures w.hist.collected <= |Requests(w.hist.log)|
  {
    var n := |Requests(w.hist.log)|;
    var c: Turn := n % CHILD_NUM;
    ShareTellsMore(n, w.hist.collected, c);
    assert ChildAgrees(w.sys, w.hist, c);
    MineOfPrefix(w.hist.log, w.hist.seen[c], c);
    MineCount(w.hist.log, c);
  }

  // Nothing in any pipe and no request with any child.
  ghost predicate Idle(s: System)
    requires Shaped(s)
  {
    forall c: Turn :: s.inbox[c] == [] && s.outbox[c] == [] && s.children[c].matchQueue == []
  }

  // When all is idle every request has been answered; so if each client asks once, no two
  // users who wait are compatible, whoever they are.
  lemma IdleMeansAnswered(acts: seq<Action>)
    requires Idle(Run(acts).sys)
    ensures Run(acts).hist.collected == |Requests(Run(acts).hist.log)|
    ensures EachAsksOnce(acts) ==>
      var requests, isDone := Requests(Run(acts).hist.log), Run(acts).sys.server.isDone;
      forall i, j :: 0 <= i < j < |requests| && !isDone[requests[i].fd] && !isDone[requests[j].fd] ==>
        !Compatible(requests[i].profile, requests[j].profile)
  {
    var w := Run(acts);
    RunAgrees(acts);
    CollectedAreRequests(w);
    NextGroup(w);
    if w.hist.collected < |Requests(w.hist.log)| {
      SomebodyCanGoOn(w);
    }
    if EachAsksOnce(acts) {
      NoCompatiblePairWaits(acts);
    }
  }

  // ---------------------------------------------------------------- going on

  ghost function Drain(c: Turn, n: nat): seq<Action> {
    if n == 0 then [] else Drain(c, n - 1) + [ChildInbox(c)]
  }

  // Only the server and its children act.
  ghost predicate Internal(acts: seq<Action>) {
    forall k :: 0 <= k < |acts| ==> !acts[k].TryMatch? && !acts[k].Leave?
  }

  lemma {:induction false} DrainIsInternal(c: Turn, n: nat)
    ensures Internal(Drain(c, n))
  {
    if n > 0 {
      DrainIsInternal(c, n - 1);
    }
  }

  lemma RunOneMore(acts: seq<Action>, a: Action)
    ensures Run(acts + [a]) == Advance(Run(acts), a)
  {
    assert (acts + [a])[..|acts|] == acts;
  }

  lemma {:induction false} DrainReads(acts: seq<Action>, c: Turn, n: nat)
    requires n <= |Run(acts).sys.inbox[c]|
    ensures var w, w' := Run(acts), Run(acts + Drain(c, n));
      && w'.sys.server == w.sys.server && w'.sys.outbox == w.sys.outbox
      && w'.hist == w.hist.(seen := w'.hist.seen)
      && |w'.sys.inbox[c]| == |w.sys.inbox[c]| - n
  {
    hide Run, ChildReceive;
    if n == 0 {
      assert acts + Drain(c, 0) == acts;
    } else {
      DrainReads(acts, c, n - 1);
      assert acts + Drain(c, n) == acts + Drain(c, n - 1) + [ChildInbox(c)];
      RunOneMore(acts + Drain(c, n - 1), ChildInbox(c));
    }
  }

  // The child whose turn it is reads all its messages.
  lemma CatchUp(acts: seq<Action>) returns (more: seq<Action>)
    requires Run(acts).hist.collected < |Requests(Run(acts).hist.log)| && !Enabled(Run(acts).sys, Collect)
    ensures var w, w' := Run(acts), Run(acts + more);
      && w'.sys.server == w.sys.server && w'.sys.outbox == w.sys.outbox
      && w'.hist == w.hist.(seen := w'.hist.seen)
      && w'.sys.inbox[w.sys.server.matched] == [] && w'.sys.children[w.sys.server.matched].matchQueue != []
    ensures Internal(more)
  {
    hide Run, Enabled, Agrees;
    var c := Run(acts).sys.server.matched;
    DrainIsInternal(c, |Run(acts).sys.inbox[c]|);
    more := Drain(c, |Run(acts).sys.inbox[c]|);
    DrainReads(acts, c, |Run(acts).sys.inbox[c]|);
    RunAgrees(acts + more);
    SomebodyCanGoOn(Run(acts + more));
    SamePipe(Run(acts).sys, Run(acts + more).sys);
  }

  lemma SamePipe(s: System, s': System)
    requires Shaped(s) && Shaped(s') && s'.server == s.server && s'.outbox == s.outbox
    ensures Enabled(s', Collect) <==> Enabled(s, Collect)
  {
  }

  lemma CollectCounts(w: World)
    requires Agrees(w) && Enabled(w.sys, Collect)
    ensures var w' := Advance(w, Collect);
      w'.hist.collected == w.hist.collected + 1 && Requests(w'.hist.log) == Requests(w.hist.log)
  {
    hide FirstWaiting;
    var log, choice := w.hist.log, Choice(w.sys);
    if choice.Some? {
      assert (log + PairEvents(choice))[..|log|] == log;
    } else {
      assert log + PairEvents(choice) == log;
    }
  }

  // The next answer can always be brought in without any client doing anything.
  lemma AnswerOne(acts: seq<Action>) returns (more: seq<Action>)
    requires Run(acts).hist.collected < |Requests(Run(acts).hist.log)|
    ensures var w, w' := Run(acts), Run(acts + more);
      w'.hist.collected == w.hist.collected + 1 && Requests(w'.hist.log) == Requests(w.hist.log)
    ensures Internal(more)
  {
    hide Run, ChildAnswer, ChildPop;
    var c := Run(acts).sys.server.matched;
    if Enabled(Run(acts).sys, Collect) {
      RunAgrees(acts);
      more := [Collect];
      CollectCounts(Run(acts));
      RunOneMore(acts, Collect);
    } else {
      var read := CatchUp(acts);
      more := read + [ChildMatch(c)] + [Collect];
      assert acts + more == (acts + read + [ChildMatch(c)]) + [Collect];
      RunOneMore(acts + read, ChildMatch(c));
      RunOneMore(acts + read + [ChildMatch(c)], Collect);
      RunAgrees(acts + read + [ChildMatch(c)]);
      AnswerArrives(Run(acts + read), c);
      CollectCounts(Run(acts + read + [ChildMatch(c)]));
    }
  }

  lemma AnswerIsNotEmpty(st: ChildState)
    requires st.matchQueue != []
    ensures ChildAnswer(st) != []
  {
  }

  lemma AnswerArrives(w: World, c: Turn)
    requires WorldShaped(w) && c == w.sys.server.matched && w.sys.children[c].matchQueue != []
    requires Agrees(Advance(w, ChildMatch(c)))
    ensures Enabled(Advance(w, ChildMatch(c)).sys, Collect)
    ensures Advance(w, ChildMatch(c)).hist.log == w.hist.log
    ensures Advance(w, ChildMatch(c)).hist.collected == w.hist.collected
  {
    hide Agrees, ChildAnswer, ChildPop, HasGroup;
    AnswerIsNotEmpty(w.sys.children[c]);
    NextGroup(Advance(w, ChildMatch(c)));
  }

  // From every reachable state the server and its children can bring in every answer
  // still missing, whatever has happened before.
  lemma {:induction false} AllCanBeAnswered(acts: seq<Action>) returns (more: seq<Action>)
    ensures Internal(more)
    ensures var w, w' := Run(acts), Run(acts + more);
      Requests(w'.hist.log) == Requests(w.hist.log) && w'.hist.collected == |Requests(w.hist.log)|
    decreases |Requests(Run(acts).hist.log)| - Run(acts).hist.collected
  {
    hide Run, Requests;
    RunAgrees(acts);
    CollectedAreRequests(Run(acts));
    if Run(acts).hist.collected == |Requests(Run(acts).hist.log)| {
      more := [];
      assert acts + [] == acts;
    } else {
      var first := AnswerOne(acts);
      var rest := AllCanBeAnswered(acts + first);
      more := first + rest;
      assert acts + (first + rest) == acts + first + rest;
    }
  }
}
