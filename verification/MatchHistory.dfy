/** Every reachable state of the matchmaker is the one its history determines, and so
    the k-th group the server reads is the answer to the k-th try_match. */
module MatchHistory {
  import opened Matchmaking
  import opened MatchSystem
  import opened Options

  // ---------------------------------------------------------------- growing a log

  lemma RequestLogged(log: seq<Event>, r: Request)
    ensures QueueOf(log + [New(r)]) == QueueOf(log) + [Entry(r.fd, r.profile)]
    ensures DoneOf(log + [New(r)]) == DoneOf(log)[r.fd := false]
    ensures Requests(log + [New(r)]) == Requests(log) + [r]
  {
    assert (log + [New(r)])[..|log|] == log;
  }

  lemma DeletionLogged(log: seq<Event>, a: Fd, b: Fd)
    ensures QueueOf(log + [Del(a, b)]) == Erase(QueueOf(log), a, b)
    ensures DoneOf(log + [Del(a, b)]) == DoneOf(log)[a := true][b := true]
    ensures Requests(log + [Del(a, b)]) == Requests(log)
  {
    assert (log + [Del(a, b)])[..|log|] == log;
  }

  lemma {:induction false} MineOfPrefix(log: seq<Event>, v: nat, c: Turn)
    requires v <= |log|
    ensures Mine(log[..v], c) <= Mine(log, c)
    decreases |log|
  {
    if v == |log| {
      assert log[..v] == log;
    } else {
      var front := log[..|log| - 1];
      assert front[..v] == log[..v];
      MineOfPrefix(front, v, c);
    }
  }

  lemma ShareSteps(k: nat, c: Turn)
    ensures Share(k + 1, c) == if k % CHILD_NUM == c then Share(k, c) + 1 else Share(k, c)
    ensures k % CHILD_NUM == c ==> c + CHILD_NUM * Share(k, c) == k
  {
  }

  lemma NobodyHasHadATurn(c: Turn)
    ensures Share(0, c) == 0
  {
  }

  lemma {:induction false} MineCount(log: seq<Event>, c: Turn)
    ensures |Mine(log, c)| == Share(|Requests(log)|, c)
  {
    hide Share;
    if log == [] {
      NobodyHasHadATurn(c);
    } else {
      MineCount(log[..|log| - 1], c);
      ShareSteps(|Requests(log[..|log| - 1])|, c);
    }
  }

  // The m-th request dealt to child c is request number c + 20m of all.
  lemma {:induction false} MineIsEveryTwentieth(log: seq<Event>, c: Turn, m: nat)
    requires m < |Mine(log, c)|
    ensures c + CHILD_NUM * m < |Requests(log)|
    ensures Mine(log, c)[m] == Requests(log)[c + CHILD_NUM * m]
  {
    var front := log[..|log| - 1];
    MineCount(front, c);
    if m < |Mine(front, c)| {
      MineIsEveryTwentieth(front, c, m);
    }
  }

  lemma {:induction false} DeliveredAt(log: seq<Event>, c: Turn, i: nat)
    requires i < |log|
    ensures Delivered(log, c)[i] == MessageFor(log[..i], log[i], c)
  {
    if i < |log| - 1 {
      var front := log[..|log| - 1];
      DeliveredAt(front, c, i);
      assert front[..i] == log[..i];
    }
  }

  lemma ChildAgreesWithGrownLog(s: System, h: History, c: Turn, e: Event, s': System, h': History)
    requires Shaped(s) && HistoryShaped(h) && ChildAgrees(s, h, c)
    requires Shaped(s') && HistoryShaped(h')
    requires h' == h.(log := h.log + [e], collected := h'.collected)
    requires s'.children[c] == s.children[c]
    requires s'.inbox[c] == s.inbox[c] + [MessageFor(h.log, e, c)]
    requires Share(h'.collected, c) <= |h.answers[c]|
    requires s'.outbox[c] == Joined(h.answers[c][Share(h'.collected, c)..])
    ensures ChildAgrees(s', h', c)
  {
    hide TablesAgree, AnswerFrom, Mine, Delivered, MessageFor, Joined, Share;
    assert h'.log[..|h.log|] == h.log;
    assert h'.log[..h.seen[c]] == h.log[..h.seen[c]];
    forall m | 0 <= m < |h.views[c]| ensures Answered(h'.log, h.views[c][m], h.answers[c][m], m, c) {
      assert Answered(h.log, h.views[c][m], h.answers[c][m], m, c);
      assert h'.log[..h.views[c][m]] == h.log[..h.views[c][m]];
    }
    DeliveredGrows(h.log, e, c);
  }

  lemma DeliveredGrows(log: seq<Event>, e: Event, c: Turn)
    ensures Delivered(log + [e], c) == Delivered(log, c) + [MessageFor(log, e, c)]
  {
    assert (log + [e])[..|log|] == log;
  }

  // ---------------------------------------------------------------- framing

  // Whatever follows a reply in the pipe, the reader takes exactly that reply.
  lemma ReplyIsSelfDelimited(fd: Fd, matched: seq<Fd>, rest: seq<Token>)
    ensures HasGroup(Reply(fd, matched) + rest)
    ensures AfterGroup(Reply(fd, matched) + rest) == rest
    ensures GroupRecords(Reply(fd, matched) + rest) ==
            if |matched| == 0 then [Record(NoMatch, 0, 0)] else MatchRecords(fd, matched)
  {
    var pipe := Reply(fd, matched) + rest;
    assert pipe[0] == Reply(fd, matched)[0];
    assert forall i :: 0 <= i < |Reply(fd, matched)| ==> pipe[i] == Reply(fd, matched)[i];
  }

  lemma AnswerIsSelfDelimited(view: seq<Event>, req: Request, rest: seq<Token>)
    ensures HasGroup(AnswerFrom(view, req) + rest)
    ensures AfterGroup(AnswerFrom(view, req) + rest) == rest
    ensures var matched := Candidates(QueueOf(view), DoneOf(view), req);
      GroupRecords(AnswerFrom(view, req) + rest) ==
      if |matched| == 0 then [Record(NoMatch, 0, 0)] else MatchRecords(req.fd, matched)
  {
    ReplyIsSelfDelimited(req.fd, Candidates(QueueOf(view), DoneOf(view), req), rest);
  }

  lemma {:induction false} JoinedGrows(groups: seq<seq<Token>>, last: seq<Token>)
    ensures Joined(groups + [last]) == Joined(groups) + last
  {
    if groups != [] {
      JoinedGrows(groups[1..], last);
      assert (groups + [last])[1..] == groups[1..] + [last];
    } else {
      assert (groups + [last])[1..] == [];
    }
  }

  // ---------------------------------------------------------------- one action

  lemma TryMatchServerAgrees(st: ServerState, h: History, fd: ClientFd, profile: Profile)
    requires ServerAgrees(st, h)
    ensures ServerAgrees(ServerTryMatch(st, fd), h.(log := h.log + [New(Request(fd, profile))]))
  {
    assert (h.log + [New(Request(fd, profile))])[..|h.log|] == h.log;
    TurnsGoRound(|Requests(h.log)|);
    hide NextTurn;
  }

  lemma TurnsGoRound(k: nat)
    ensures NextTurn(k % CHILD_NUM) == (k + 1) % CHILD_NUM
  {
  }

  lemma LeaveServerAgrees(st: ServerState, h: History, fd: ClientFd)
    requires ServerAgrees(st, h)
    ensures ServerAgrees(ServerLeave(st, fd), h.(log := h.log + [Del(fd, st.pair[fd])]))
  {
    assert (h.log + [Del(fd, st.pair[fd])])[..|h.log|] == h.log;
  }

  lemma CollectedWithin(w: World, c: Turn)
    requires Agrees(w)
    ensures Share(w.hist.collected, c) <= |w.hist.answers[c]|
    ensures w.sys.outbox[c] == Joined(w.hist.answers[c][Share(w.hist.collected, c)..])
  {
    hide Share, AnswersFit, TablesAgree, Joined, Delivered;
    assert ChildAgrees(w.sys, w.hist, c);
  }

  lemma TryMatchAgrees(w: World, fd: ClientFd, profile: Profile)
    requires Agrees(w)
    ensures Agrees(Advance(w, TryMatch(fd, profile)))
  {
    hide ChildAgrees, ServerAgrees, ServerTryMatch, Share, Joined;
    var e := New(Request(fd, profile));
    var w' := Advance(w, TryMatch(fd, profile));
    TryMatchServerAgrees(w.sys.server, w.hist, fd, profile);
    TurnFollowsRequests(w);
    forall c: Turn ensures ChildAgrees(w'.sys, w'.hist, c) {
      CollectedWithin(w, c);
      assert ChildAgrees(w.sys, w.hist, c);
      assert w'.sys.inbox[c] == w.sys.inbox[c] + [MessageFor(w.hist.log, e, c)];
      ChildAgreesWithGrownLog(w.sys, w.hist, c, e, w'.sys, w'.hist);
    }
  }

  lemma TurnFollowsRequests(w: World)
    requires Agrees(w)
    ensures w.sys.server.current == |Requests(w.hist.log)| % CHILD_NUM
  {
  }

  lemma LeaveAgrees(w: World, fd: ClientFd)
    requires Agrees(w)
    ensures Agrees(Advance(w, Leave(fd)))
  {
    hide ChildAgrees, ServerAgrees, ServerLeave, Share, Joined;
    var e := Del(fd, w.sys.server.pair[fd]);
    var w' := Advance(w, Leave(fd));
    LeaveServerAgrees(w.sys.server, w.hist, fd);
    forall c: Turn ensures ChildAgrees(w'.sys, w'.hist, c) {
      CollectedWithin(w, c);
      assert ChildAgrees(w.sys, w.hist, c);
      ChildAgreesWithGrownLog(w.sys, w.hist, c, e, w'.sys, w'.hist);
    }
  }

  lemma UntouchedChildAgrees(s: System, h: History, s': System, h': History, d: Turn)
    requires Shaped(s) && HistoryShaped(h) && Shaped(s') && HistoryShaped(h') && ChildAgrees(s, h, d)
    requires s'.children[d] == s.children[d] && s'.inbox[d] == s.inbox[d]
    requires h'.log == h.log && h'.seen[d] == h.seen[d]
    requires h'.views[d] == h.views[d] && h'.answers[d] == h.answers[d]
    requires Share(h'.collected, d) <= |h.answers[d]|
    requires s'.outbox[d] == Joined(h.answers[d][Share(h'.collected, d)..])
    ensures ChildAgrees(s', h', d)
  {
  }

  lemma MatchingChildAgrees(w: World, c: Turn)
    requires Agrees(w) && Enabled(w.sys, ChildMatch(c))
    ensures ChildAgrees(Step(w.sys, ChildMatch(c)), Note(w.sys, w.hist, ChildMatch(c)), c)
  {
    hide Reply, Candidates, QueueOf, DoneOf, Mine, Delivered;
    var s, h, h' := w.sys, w.hist, Note(w.sys, w.hist, ChildMatch(c));
    assert ChildAgrees(s, h, c);
    var from, answer := Share(h.collected, c), ChildAnswer(s.children[c]);
    JoinedGrows(h.answers[c][from..], answer);
    assert h'.answers[c][from..] == h.answers[c][from..] + [answer];
    assert Answered(h.log, h.seen[c], answer, |h.answers[c]|, c);
  }

  lemma ChildMatchAgrees(w: World, c: Turn)
    requires Agrees(w) && Enabled(w.sys, ChildMatch(c))
    ensures Agrees(Advance(w, ChildMatch(c)))
  {
    var w' := Advance(w, ChildMatch(c));
    forall d: Turn ensures ChildAgrees(w'.sys, w'.hist, d) {
      assert ChildAgrees(w.sys, w.hist, d);
      if d == c {
        MatchingChildAgrees(w, c);
      } else {
        UntouchedChildAgrees(w.sys, w.hist, w'.sys, w'.hist, d);
      }
    }
  }

  lemma ReceiveFollowsLog(st: ChildState, view: seq<Event>, e: Event, answered: nat, c: Turn)
    requires TablesAgree(st, view, answered, c)
    ensures TablesAgree(ChildReceive(st, MessageFor(view, e, c)), view + [e], answered, c)
  {
    assert (view + [e])[..|view|] == view;
  }

  lemma ReadingChildAgrees(w: World, c: Turn)
    requires Agrees(w) && Enabled(w.sys, ChildInbox(c))
    ensures ChildAgrees(Step(w.sys, ChildInbox(c)), Note(w.sys, w.hist, ChildInbox(c)), c)
  {
    hide TablesAgree, Answered, Mine, Delivered, MessageFor, Joined, Share, ChildReceive;
    var s, h := w.sys, w.hist;
    var seen := h.seen[c];
    assert ChildAgrees(s, h, c);
    DeliveredAt(h.log, c, seen);
    ReceiveFollowsLog(s.children[c], h.log[..seen], h.log[seen], |h.answers[c]|, c);
    assert h.log[..seen + 1] == h.log[..seen] + [h.log[seen]];
    assert s.inbox[c][1..] == Delivered(h.log, c)[seen + 1..];
  }

  lemma ChildInboxAgrees(w: World, c: Turn)
    requires Agrees(w) && Enabled(w.sys, ChildInbox(c))
    ensures Agrees(Advance(w, ChildInbox(c)))
  {
    var w' := Advance(w, ChildInbox(c));
    forall d: Turn ensures ChildAgrees(w'.sys, w'.hist, d) {
      assert ChildAgrees(w.sys, w.hist, d);
      if d == c {
        ReadingChildAgrees(w, c);
      } else {
        UntouchedChildAgrees(w.sys, w.hist, w'.sys, w'.hist, d);
      }
    }
  }

  // A pipe that is not empty starts with a whole group, the oldest answer not yet collected.
  lemma NextGroup(w: World)
    requires Agrees(w)
    ensures Enabled(w.sys, Collect) <==> |w.sys.outbox[w.sys.server.matched]| > 0
    ensures Enabled(w.sys, Collect) ==>
      var c := w.sys.server.matched;
      var m := Share(w.hist.collected, c);
      && m < |w.hist.answers[c]| == |w.hist.views[c]|
      && Answered(w.hist.log, w.hist.views[c][m], w.hist.answers[c][m], m, c)
      && w.sys.outbox[c] == w.hist.answers[c][m] + Joined(w.hist.answers[c][m + 1..])
      && AfterGroup(w.sys.outbox[c]) == Joined(w.hist.answers[c][m + 1..])
  {
    var c := w.sys.server.matched;
    var m := Share(w.hist.collected, c);
    var answers := w.hist.answers[c];
    assert ChildAgrees(w.sys, w.hist, c);
    if m < |answers| {
      assert Answered(w.hist.log, w.hist.views[c][m], answers[m], m, c);
      assert answers[m..][1..] == answers[m + 1..];
      AnswerIsSelfDelimited(w.hist.log[..w.hist.views[c][m]], Mine(w.hist.log[..w.hist.views[c][m]], c)[m],
                            Joined(answers[m + 1..]));
    }
  }

  lemma CollectPops(w: World, d: Turn)
    requires Agrees(w) && Enabled(w.sys, Collect)
    ensures var from := Share(w.hist.collected + 1, d);
      && from <= |w.hist.answers[d]|
      && Step(w.sys, Collect).outbox[d] == Joined(w.hist.answers[d][from..])
  {
    ShareSteps(w.hist.collected, d);
    assert ChildAgrees(w.sys, w.hist, d);
    if d == w.sys.server.matched {
      NextGroup(w);
    }
  }

  lemma PairServerAgrees(st: ServerState, h: History, choice: Option<(Fd, Fd)>)
    requires ServerAgrees(st, h)
    ensures ServerAgrees(ServerPair(st, choice), h.(log := h.log + PairEvents(choice), collected := h.collected + 1))
  {
    TurnsGoRound(h.collected);
    hide NextTurn, DoneOf, Requests;
    match choice
    case None => assert h.log + [] == h.log;
    case Some(pair) => DeletionLogged(h.log, pair.0, pair.1);
  }

  lemma CollectServerAgrees(w: World)
    requires Agrees(w) && Enabled(w.sys, Collect)
    ensures ServerAgrees(Step(w.sys, Collect).server, Note(w.sys, w.hist, Collect))
  {
    hide ServerAgrees, ChildAgrees, ServerPair, PairEvents, Choice;
    PairServerAgrees(w.sys.server, w.hist, Choice(w.sys));
  }

  lemma CollectChildAgrees(w: World, d: Turn)
    requires Agrees(w) && Enabled(w.sys, Collect)
    ensures ChildAgrees(Step(w.sys, Collect), Note(w.sys, w.hist, Collect), d)
  {
    hide ChildAgrees, FirstWaiting;
    var s', h' := Step(w.sys, Collect), Note(w.sys, w.hist, Collect);
    var choice := Choice(w.sys);
    assert ChildAgrees(w.sys, w.hist, d);
    CollectPops(w, d);
    if choice.Some? {
      ChildAgreesWithGrownLog(w.sys, w.hist, d, Del(choice.value.0, choice.value.1), s', h');
    } else {
      assert h'.log == w.hist.log;
      UntouchedChildAgrees(w.sys, w.hist, s', h', d);
    }
  }

  lemma CollectAgrees(w: World)
    requires Agrees(w) && Enabled(w.sys, Collect)
    ensures Agrees(Advance(w, Collect))
  {
    hide ChildAgrees;
    CollectServerAgrees(w);
    forall d: Turn ensures ChildAgrees(Step(w.sys, Collect), Note(w.sys, w.hist, Collect), d) {
      CollectChildAgrees(w, d);
    }
  }

  lemma AdvanceAgrees(w: World, a: Action)
    requires Agrees(w)
    ensures Agrees(Advance(w, a))
  {
    if Enabled(w.sys, a) {
      match a
      case TryMatch(fd, profile) => TryMatchAgrees(w, fd, profile);
      case Leave(fd) => LeaveAgrees(w, fd);
      case Collect => CollectAgrees(w);
      case ChildMatch(c) => ChildMatchAgrees(w, c);
      case ChildInbox(c) => ChildInboxAgrees(w, c);
    }
  }

  // ---------------------------------------------------------------- every run

  lemma {:induction false} RunAgrees(acts: seq<Action>)
    ensures Agrees(Run(acts))
  {
    if acts == [] {
      forall c: Turn ensures ChildAgrees(Init(), NoHistory(), c) {
      }
    } else {
      RunAgrees(acts[..|acts| - 1]);
      AdvanceAgrees(Run(acts[..|acts| - 1]), acts[|acts| - 1]);
    }
  }

  lemma ServerTurn(w: World)
    requires Agrees(w)
    ensures w.sys.server.matched == w.hist.collected % CHILD_NUM
  {
  }

  lemma MineInPrefix(log: seq<Event>, v: nat, c: Turn, m: nat)
    requires v <= |log| && m < |Mine(log[..v], c)|
    ensures c + CHILD_NUM * m < |Requests(log[..v])| && c + CHILD_NUM * m < |Requests(log)|
    ensures Mine(log[..v], c)[m] == Requests(log)[c + CHILD_NUM * m]
  {
    hide Mine, Requests;
    MineOfPrefix(log, v, c);
    MineIsEveryTwentieth(log, c, m);
    MineIsEveryTwentieth(log[..v], c, m);
  }

  // The group in front, and the part of the broadcasts it was worked out from.
  lemma NextAnswer(w: World) returns (v: nat, rest: seq<Token>)
    requires Agrees(w) && Enabled(w.sys, Collect)
    ensures w.hist.collected < |Requests(w.hist.log)|
    ensures v <= |w.hist.log| && w.hist.collected < |Requests(w.hist.log[..v])|
    ensures w.sys.outbox[w.sys.server.matched] ==
            AnswerFrom(w.hist.log[..v], Requests(w.hist.log)[w.hist.collected]) + rest
  {
    NextGroup(w);
    ServerTurn(w);
    hide AnswerFrom, Joined, Mine, Requests, Share, ChildAgrees, ServerAgrees, HasGroup, AfterGroup, Agrees;
    var c := w.sys.server.matched;
    var m := Share(w.hist.collected, c);
    v, rest := w.hist.views[c][m], Joined(w.hist.answers[c][m + 1..]);
    ShareSteps(w.hist.collected, c);
    MineInPrefix(w.hist.log, v, c, m);
  }

  lemma CollectedAnswer(w: World)
    requires Agrees(w) && Enabled(w.sys, Collect)
    ensures w.hist.collected < |Requests(w.hist.log)|
    ensures exists v: nat, rest: seq<Token> ::
      && v <= |w.hist.log|
      && w.hist.collected < |Requests(w.hist.log[..v])|
      && w.sys.outbox[w.sys.server.matched] ==
         AnswerFrom(w.hist.log[..v], Requests(w.hist.log)[w.hist.collected]) + rest
  {
    hide AnswerFrom, Requests, Agrees, HasGroup;
    var v, rest := NextAnswer(w);
  }

  // Global order: in every run, the k-th group the server reads is the answer to the
  // k-th try_match, worked out from some prefix of the broadcasts that holds it.
  lemma GroupsAnswerRequestsInOrder(acts: seq<Action>)
    ensures var w := Run(acts);
      Enabled(w.sys, Collect) ==>
        var k := w.hist.collected;
        var requests := Requests(w.hist.log);
        && k < |requests|
        && exists v: nat, rest: seq<Token> ::
             && v <= |w.hist.log|
             && k < |Requests(w.hist.log[..v])|
             && w.sys.outbox[w.sys.server.matched] == AnswerFrom(w.hist.log[..v], requests[k]) + rest
  {
    var w := Run(acts);
    RunAgrees(acts);
    NextGroup(w);
    if Enabled(w.sys, Collect) {
      CollectedAnswer(w);
    }
  }
}
