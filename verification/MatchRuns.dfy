/** Two runs of the matchmaker: one in which asking again takes a partner away, and one in
    which an answer outlives the session it was meant for. */
module MatchRuns {
  import opened Matchmaking
  import opened MatchSystem
  import opened MatchHistory
  import opened MatchPairing
  import opened MatchProgress
  import opened Options

  // ---------------------------------------------------------------- a partner lost

  // A moment with all answer pipes empty.
  ghost predicate At(acts: seq<Action>, log: seq<Event>, pair: Partners, collected: nat) {
    var w := Run(acts);
    && w.hist.log == log && w.sys.server.pair == pair && w.hist.collected == collected
    && forall c: Turn :: w.sys.outbox[c] == []
  }

  ghost function WithPair(pair: Partners, choice: Option<(Fd, Fd)>): Partners {
    match choice
    case None => pair
    case Some((x, y)) => pair[x := y][y := x]
  }

  // What the server makes of request k when its answer is worked out from the whole log.
  ghost function ChoiceFrom(log: seq<Event>, k: nat): Option<(Fd, Fd)>
    requires k < |Requests(log)|
  {
    var req := Requests(log)[k];
    var matched := Candidates(QueueOf(log), DoneOf(log), req);
    FirstWaiting(if |matched| == 0 then [Record(NoMatch, 0, 0)] else MatchRecords(req.fd, matched), DoneOf(log))
  }

  lemma AskAt(acts: seq<Action>, fd: ClientFd, p: Profile, log: seq<Event>, pair: Partners, k: nat)
    requires At(acts, log, pair, k)
    ensures At(acts + [TryMatch(fd, p)], log + [New(Request(fd, p))], pair, k)
  {
    RunOneMore(acts, TryMatch(fd, p));
  }

  // A child that has read everything answers from the whole log.
  lemma AnswersFromLog(w: World, c: Turn)
    requires Agrees(w) && c == w.sys.server.matched && w.sys.inbox[c] == [] && w.sys.children[c].matchQueue != []
    requires w.sys.outbox[c] == []
    ensures w.hist.collected < |Requests(w.hist.log)|
    ensures ChildAnswer(w.sys.children[c]) == AnswerFrom(w.hist.log, Requests(w.hist.log)[w.hist.collected])
  {
    hide Candidates, Reply;
    var h, st := w.hist, w.sys.children[c];
    assert ChildAgrees(w.sys, h, c);
    assert h.log[..h.seen[c]] == h.log;
    var m := Share(h.collected, c);
    if m < |h.answers[c]| {
      PendingAnswerIsReadable(w);
    }
    ShareSteps(h.collected, c);
    MineIsEveryTwentieth(h.log, c, m);
    assert st.matchQueue[0] == Mine(h.log, c)[m];
  }

  lemma CollectFromLog(w: World, c: Turn)
    requires Agrees(w) && c == w.sys.server.matched && w.hist.collected < |Requests(w.hist.log)|
    requires w.sys.outbox[c] == AnswerFrom(w.hist.log, Requests(w.hist.log)[w.hist.collected])
    ensures Enabled(w.sys, Collect) && Choice(w.sys) == ChoiceFrom(w.hist.log, w.hist.collected)
    ensures AfterGroup(w.sys.outbox[c]) == []
  {
    hide Candidates, Reply, FirstWaiting;
    var answer := AnswerFrom(w.hist.log, Requests(w.hist.log)[w.hist.collected]);
    assert answer + [] == answer;
    AnswerIsSelfDelimited(w.hist.log, Requests(w.hist.log)[w.hist.collected], []);
  }

  lemma CollectAt(w: World, c: Turn)
    requires WorldShaped(w) && c == w.sys.server.matched && Enabled(w.sys, Collect) && AfterGroup(w.sys.outbox[c]) == []
    requires forall d: Turn :: d != c ==> w.sys.outbox[d] == []
    ensures var w', choice := Advance(w, Collect), Choice(w.sys);
      && w'.hist.log == w.hist.log + PairEvents(choice) && w'.hist.collected == w.hist.collected + 1
      && w'.sys.server.pair == WithPair(w.sys.server.pair, choice)
      && forall d: Turn :: w'.sys.outbox[d] == []
  {
    hide FirstWaiting;
  }

  lemma ServeAt(acts: seq<Action>, log: seq<Event>, pair: Partners, k: nat) returns (more: seq<Action>)
    requires At(acts, log, pair, k) && k < |Requests(log)|
    ensures At(acts + more, log + PairEvents(ChoiceFrom(log, k)), WithPair(pair, ChoiceFrom(log, k)), k + 1)
  {
    hide Run, ChildAnswer, ChildPop, ChoiceFrom, AnswerFrom, Requests;
    var c := Run(acts).sys.server.matched;
    var read := CatchUp(acts);
    RunAgrees(acts + read);
    AnswersFromLog(Run(acts + read), c);
    RunOneMore(acts + read, ChildMatch(c));
    RunAgrees(acts + read + [ChildMatch(c)]);
    CollectFromLog(Run(acts + read + [ChildMatch(c)]), c);
    CollectAt(Run(acts + read + [ChildMatch(c)]), c);
    RunOneMore(acts + read + [ChildMatch(c)], Collect);
    more := read + [ChildMatch(c)] + [Collect];
    assert acts + more == acts + read + [ChildMatch(c)] + [Collect];
  }

  lemma NothingLogged()
    ensures QueueOf([]) == [] && DoneOf([]) == AllDone() && Requests([]) == []
  {
  }

  // One entry of the queue, as the scan comes to it.
  lemma ScanStops(queue: seq<Entry>, isDone: Flags, req: Request)
    requires queue != [] && queue[0].fd == req.fd
    ensures MatchedUsers(queue, isDone, req) == []
  {
  }

  lemma ScanSkips(queue: seq<Entry>, isDone: Flags, req: Request)
    requires queue != [] && queue[0].fd == -1
    ensures MatchedUsers(queue, isDone, req) == MatchedUsers(queue[1..], isDone, req)
  {
  }

  lemma ScanTakes(queue: seq<Entry>, isDone: Flags, req: Request)
    requires queue != [] && queue[0].fd >= 0 && queue[0].fd != req.fd && !isDone[queue[0].fd]
    requires Compatible(req.profile, queue[0].profile)
    ensures MatchedUsers(queue, isDone, req) == [queue[0].fd] + MatchedUsers(queue[1..], isDone, req)
  {
  }

  lemma NobodyChosen(log: seq<Event>, k: nat)
    requires k < |Requests(log)| && Candidates(QueueOf(log), DoneOf(log), Requests(log)[k]) == []
    ensures ChoiceFrom(log, k) == None
  {
    hide Candidates, QueueOf, DoneOf, Requests;
    assert [Record(NoMatch, 0, 0)][1..] == [];
    assert FirstWaiting([Record(NoMatch, 0, 0)], DoneOf(log)) == None;
  }

  lemma OneChosen(log: seq<Event>, k: nat, y: Fd)
    requires k < |Requests(log)| && Candidates(QueueOf(log), DoneOf(log), Requests(log)[k]) == [y]
    requires !DoneOf(log)[Requests(log)[k].fd] && !DoneOf(log)[y]
    ensures ChoiceFrom(log, k) == Some((Requests(log)[k].fd as Fd, y))
  {
    hide Candidates, QueueOf, DoneOf, Requests;
    assert MatchRecords(Requests(log)[k].fd, [y]) == [Record(SendMatch, Requests(log)[k].fd, y)];
  }

  // Two clients ask: the first finds nobody, the second finds the first.
  ghost function TwoAsked(x: ClientFd, y: ClientFd, p: Profile): seq<Event> {
    [] + [New(Request(x, p))] + [New(Request(y, p))]
  }

  lemma FirstTwo(x: ClientFd, y: ClientFd, p: Profile)
    requires x != y && Compatible(p, p)
    ensures var log := TwoAsked(x, y, p);
      && QueueOf(log) == [Entry(x, p), Entry(y, p)] && Requests(log) == [Request(x, p), Request(y, p)]
      && DoneOf(log) == AllDone()[x := false][y := false]
      && ChoiceFrom(log, 0) == None && ChoiceFrom(log, 1) == Some((y, x))
  {
    var log := TwoAsked(x, y, p);
    NothingLogged();
    RequestLogged([], Request(x, p));
    RequestLogged([] + [New(Request(x, p))], Request(y, p));
    hide QueueOf, DoneOf, Requests, AllDone, MatchedUsers, ChoiceFrom;
    var queue, isDone := [Entry(x, p), Entry(y, p)], AllDone()[x := false][y := false];
    assert QueueOf(log) == queue && DoneOf(log) == isDone;
    ScanStops(queue, isDone, Request(x, p));
    ScanStops(queue[1..], isDone, Request(y, p));
    ScanTakes(queue, isDone, Request(y, p));
    NobodyChosen(log, 0);
    OneChosen(log, 1, x);
  }

  // They are paired. Then the second asks again and a third asks too: the second finds
  // nobody, and the third finds the second.
  ghost function AskedAgain(x: ClientFd, y: ClientFd, z: ClientFd, p: Profile): seq<Event> {
    TwoAsked(x, y, p) + [Del(y, x)] + [New(Request(y, p))] + [New(Request(z, p))]
  }

  lemma TablesAfterAskingAgain(x: ClientFd, y: ClientFd, z: ClientFd, p: Profile)
    requires x != y && y != z && x != z && Compatible(p, p)
    ensures var log := AskedAgain(x, y, z, p);
      && QueueOf(log) == [Entry(-1, p), Entry(-1, p), Entry(y, p), Entry(z, p)]
      && DoneOf(log)[x] && !DoneOf(log)[y] && !DoneOf(log)[z]
      && Requests(log) == [Request(x, p), Request(y, p), Request(y, p), Request(z, p)]
  {
    FirstTwo(x, y, p);
    var paired := TwoAsked(x, y, p) + [Del(y, x)];
    DeletionLogged(TwoAsked(x, y, p), y, x);
    RequestLogged(paired, Request(y, p));
    RequestLogged(paired + [New(Request(y, p))], Request(z, p));
    hide QueueOf, DoneOf, Requests, AllDone, ChoiceFrom;
    assert QueueOf(paired) == [Entry(-1, p), Entry(-1, p)];
  }

  lemma SecondTwo(x: ClientFd, y: ClientFd, z: ClientFd, p: Profile)
    requires x != y && y != z && x != z && Compatible(p, p)
    ensures var log := AskedAgain(x, y, z, p);
      && |Requests(log)| == 4 && ChoiceFrom(log, 2) == None && ChoiceFrom(log, 3) == Some((z, y))
  {
    var log := AskedAgain(x, y, z, p);
    TablesAfterAskingAgain(x, y, z, p);
    hide QueueOf, DoneOf, Requests, MatchedUsers, ChoiceFrom, AskedAgain;
    var queue, isDone := QueueOf(log), DoneOf(log);
    ScanSkips(queue, isDone, Request(y, p));
    ScanSkips(queue[1..], isDone, Request(y, p));
    ScanStops(queue[1..][1..], isDone, Request(y, p));
    NobodyChosen(log, 2);
    ScanSkips(queue, isDone, Request(z, p));
    ScanSkips(queue[1..], isDone, Request(z, p));
    ScanTakes(queue[1..][1..], isDone, Request(z, p));
    ScanStops(queue[1..][1..][1..], isDone, Request(z, p));
    OneChosen(log, 3, y);
  }

  lemma NothingAsked()
    ensures At([], [], NoPartners(), 0)
  {
  }

  // x and y ask and are paired.
  lemma TwoGetPaired(x: ClientFd, y: ClientFd, p: Profile) returns (acts: seq<Action>)
    requires x != y && Compatible(p, p)
    ensures At(acts, TwoAsked(x, y, p) + [Del(y, x)], NoPartners()[y := x][x := y], 2)
  {
    NothingAsked();
    FirstTwo(x, y, p);
    hide At, ChoiceFrom, Requests, NoPartners;
    var none, log := NoPartners(), TwoAsked(x, y, p);
    AskAt([], x, p, [], none, 0);
    AskAt([] + [TryMatch(x, p)], y, p, [] + [New(Request(x, p))], none, 0);
    acts := [] + [TryMatch(x, p)] + [TryMatch(y, p)];
    var more := ServeAt(acts, log, none, 0);
    acts := acts + more;
    assert log + [] == log;
    more := ServeAt(acts, log, none, 1);
    acts := acts + more;
  }

  lemma ThirdTakesPartner(x: ClientFd, y: ClientFd, z: ClientFd, p: Profile) returns (acts: seq<Action>)
    requires x != y && y != z && x != z && Compatible(p, p)
    ensures At(acts, AskedAgain(x, y, z, p) + [Del(z, y)], NoPartners()[y := x][x := y][z := y][y := z], 4)
  {
    acts := TwoGetPaired(x, y, p);
    SecondTwo(x, y, z, p);
    hide At, ChoiceFrom, Requests, NoPartners, TwoAsked;
    var log, pair := TwoAsked(x, y, p) + [Del(y, x)], NoPartners()[y := x][x := y];
    AskAt(acts, y, p, log, pair, 2);
    AskAt(acts + [TryMatch(y, p)], z, p, log + [New(Request(y, p))], pair, 2);
    acts := acts + [TryMatch(y, p)] + [TryMatch(z, p)];
    log := AskedAgain(x, y, z, p);
    var more := ServeAt(acts, log, pair, 2);
    acts := acts + more;
    assert log + [] == log;
    more := ServeAt(acts, log, pair, 3);
    acts := acts + more;
  }

  // A reachable state in which asking again has taken a partner away: x still has y for a
  // partner, but y has z.
  lemma AskingAgainOrphansThePartner(x: ClientFd, y: ClientFd, z: ClientFd, p: Profile) returns (acts: seq<Action>)
    requires x != y && y != z && x != z && Compatible(p, p)
    ensures var st := Run(acts).sys.server;
      st.pair[x] == y && st.pair[y] == z && st.pair[z] == y && !Paired(st) && !Quiet(acts)
  {
    acts := ThirdTakesPartner(x, y, z, p);
    hide Run, Quiet, AlwaysPaired, Paired, AskedAgain;
    PairedExactlyInQuietRuns(acts);
    NotPairedNow(acts, x);
  }

  lemma NotPairedNow(acts: seq<Action>, x: Fd)
    requires var pair := Run(acts).sys.server.pair; pair[x] != 0 && pair[pair[x]] != x
    ensures !Paired(Run(acts).sys.server) && !AlwaysPaired(acts)
  {
  }

  // ---------------------------------------------------------------- an answer gone stale

  // An answer is in its pipe, and the server comes to it next.
  ghost predicate AnswerWaits(w: World, answer: seq<Token>, collected: nat) {
    && Agrees(w) && w.hist.collected == collected && w.sys.outbox[w.sys.server.matched] == answer
  }

  // y's answer, which names x, is written but not yet read.
  lemma AnswerIsWritten(x: ClientFd, y: ClientFd, p: Profile) returns (acts: seq<Action>)
    requires x != y && Compatible(p, p)
    ensures var w := Run(acts);
      && AnswerWaits(w, Reply(y, [x]), 1) && w.hist.log == TwoAsked(x, y, p) && w.sys.server.pair == NoPartners()
  {
    NothingAsked();
    FirstTwo(x, y, p);
    AnswerNamesFirst(x, y, p);
    hide ChoiceFrom, Requests, NoPartners, Run, AnswerFrom;
    var none, log := NoPartners(), TwoAsked(x, y, p);
    AskAt([], x, p, [], none, 0);
    AskAt([] + [TryMatch(x, p)], y, p, [] + [New(Request(x, p))], none, 0);
    acts := [] + [TryMatch(x, p)] + [TryMatch(y, p)];
    var more := ServeAt(acts, log, none, 0);
    acts := acts + more;
    assert log + [] == log;
    NothingToCollect(acts, log, none, 1);
    var c := Run(acts).sys.server.matched;
    var read := CatchUp(acts);
    RunAgrees(acts + read);
    AnswersFromLog(Run(acts + read), c);
    RunOneMore(acts + read, ChildMatch(c));
    RunAgrees(acts + read + [ChildMatch(c)]);
    assert Run(acts + read).sys.outbox[c] == [];
    WritesAnswer(Run(acts + read), c);
    acts := acts + read + [ChildMatch(c)];
  }

  lemma NothingToCollect(acts: seq<Action>, log: seq<Event>, pair: Partners, k: nat)
    requires At(acts, log, pair, k)
    ensures !Enabled(Run(acts).sys, Collect) && Run(acts).sys.outbox[Run(acts).sys.server.matched] == []
  {
    hide Run;
  }

  lemma WritesAnswer(w: World, c: Turn)
    requires WorldShaped(w) && Enabled(w.sys, ChildMatch(c)) && w.sys.outbox[c] == []
    ensures var w' := Advance(w, ChildMatch(c));
      w'.sys.outbox[c] == ChildAnswer(w.sys.children[c]) && w'.sys.server == w.sys.server && w'.hist.log == w.hist.log
      && w'.hist.collected == w.hist.collected
  {
    hide ChildAnswer, ChildPop;
    assert [] + ChildAnswer(w.sys.children[c]) == ChildAnswer(w.sys.children[c]);
  }

  lemma AnswerNamesFirst(x: ClientFd, y: ClientFd, p: Profile)
    requires x != y && Compatible(p, p)
    ensures var log := TwoAsked(x, y, p);
      |Requests(log)| == 2 && AnswerFrom(log, Requests(log)[1]) == Reply(y, [x])
  {
    var log := TwoAsked(x, y, p);
    FirstTwo(x, y, p);
    hide QueueOf, DoneOf, Requests, AllDone, MatchedUsers, ChoiceFrom;
    var queue, isDone := QueueOf(log), DoneOf(log);
    assert queue[1..] == [Entry(y, p)];
    ScanStops(queue[1..], isDone, Request(y, p));
    ScanTakes(queue, isDone, Request(y, p));
    assert [x] + [] == [x];
  }

  lemma LeaveAndReturn(w: World, answer: seq<Token>, k: nat, y: ClientFd, q: Profile)
    requires AnswerWaits(w, answer, k) && w.sys.server.pair[y] == 0 && w.sys.server.pair[0] == 0
    ensures var w' := Advance(Advance(w, Leave(y)), TryMatch(y, q));
      && AnswerWaits(w', answer, k) && w'.hist.log == w.hist.log + [Del(y, 0)] + [New(Request(y, q))]
      && w'.sys.server.pair == w.sys.server.pair
  {
    AdvanceAgrees(w, Leave(y));
    AdvanceAgrees(Advance(w, Leave(y)), TryMatch(y, q));
    hide Agrees;
  }

  lemma CollectOne(w: World, y: Fd, x: Fd)
    requires Agrees(w) && w.sys.outbox[w.sys.server.matched] == Reply(y, [x])
    requires !w.sys.server.isDone[x] && !w.sys.server.isDone[y]
    ensures var st := Advance(w, Collect).sys.server;
      Enabled(w.sys, Collect) && st.pair == w.sys.server.pair[y := x][x := y]
    ensures Requests(Advance(w, Collect).hist.log) == Requests(w.hist.log)
    ensures Advance(w, Collect).hist.collected == w.hist.collected + 1
  {
    assert Reply(y, [x]) + [] == Reply(y, [x]);
    ReplyIsSelfDelimited(y, [x], []);
    assert MatchRecords(y, [x]) == [Record(SendMatch, y, x)];
    CollectCounts(w);
    hide Agrees, Requests;
  }

  lemma DoneAfterReturn(x: ClientFd, y: ClientFd, p: Profile, q: Profile)
    requires x != y && Compatible(p, p)
    ensures var log := TwoAsked(x, y, p) + [Del(y, 0)] + [New(Request(y, q))];
      && !DoneOf(log)[x] && !DoneOf(log)[y]
      && Requests(log) == [Request(x, p), Request(y, p), Request(y, q)]
  {
    FirstTwo(x, y, p);
    DeletionLogged(TwoAsked(x, y, p), y, 0);
    RequestLogged(TwoAsked(x, y, p) + [Del(y, 0)], Request(y, q));
    hide DoneOf, Requests, QueueOf, ChoiceFrom, TwoAsked, AllDone;
  }

  // y leaves and comes back while the answer is in its pipe.
  lemma AnswerGoesStale(x: ClientFd, y: ClientFd, p: Profile, q: Profile) returns (acts: seq<Action>)
    requires x != y && Compatible(p, p)
    ensures var w := Run(acts);
      && AnswerWaits(w, Reply(y, [x]), 1) && w.sys.server.pair == NoPartners()
      && w.hist.log == TwoAsked(x, y, p) + [Del(y, 0)] + [New(Request(y, q))]
  {
    var before := AnswerIsWritten(x, y, p);
    assert NoPartners()[y] == 0 && NoPartners()[0] == 0;
    hide Run, Reply, NoPartners, TwoAsked, AnswerWaits;
    LeaveAndReturn(Run(before), Reply(y, [x]), 1, y, q);
    RunOneMore(before, Leave(y));
    RunOneMore(before + [Leave(y)], TryMatch(y, q));
    acts := before + [Leave(y)] + [TryMatch(y, q)];
  }

  lemma FlagsAreLogged(w: World)
    requires Agrees(w)
    ensures w.sys.server.isDone == DoneOf(w.hist.log)
  {
  }

  lemma CollectStale(w: World, y: Fd, x: Fd)
    requires AnswerWaits(w, Reply(y, [x]), 1) && !DoneOf(w.hist.log)[x] && !DoneOf(w.hist.log)[y]
    ensures var w' := Advance(w, Collect);
      && Requests(w'.hist.log) == Requests(w.hist.log) && w'.hist.collected == 2
      && w'.sys.server.pair == w.sys.server.pair[y := x][x := y]
  {
    hide Reply, Requests, DoneOf, Advance;
    FlagsAreLogged(w);
    CollectOne(w, y, x);
  }

  // A client that leaves and comes back with another profile can be paired by the answer
  // to its first request: here with x, whom its new profile does not suit.
  lemma StaleAnswerPairs(x: ClientFd, y: ClientFd, p: Profile, q: Profile) returns (acts: seq<Action>)
    requires x != y && Compatible(p, p) && !Compatible(q, p)
    ensures var w := Run(acts);
      && Requests(w.hist.log) == [Request(x, p), Request(y, p), Request(y, q)] && w.hist.collected == 2
      && w.sys.server.pair[x] == y && w.sys.server.pair[y] == x
  {
    hide Run, Reply, Requests, DoneOf, NoPartners, TwoAsked, Advance, AnswerWaits;
    acts := AnswerGoesStale(x, y, p, q);
    DoneAfterReturn(x, y, p, q);
    CollectStale(Run(acts), y, x);
    RunOneMore(acts, Collect);
    acts := acts + [Collect];
  }
}
