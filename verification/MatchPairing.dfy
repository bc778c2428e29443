/** The server's partner table. Stale and repeated answers never damage it; the one
    thing that does is a try_match from a client who still has a partner. */
module MatchPairing {
  import opened Matchmaking
  import opened MatchSystem
  import opened MatchHistory
  import opened Options

  // A symmetric partial pairing without fixed points, of users who are done waiting.
  ghost predicate Paired(st: ServerState) {
    && st.pair[0] == 0
    && forall x: Fd :: st.pair[x] != 0 ==>
         st.pair[x] != x && st.pair[st.pair[x]] == x && st.isDone[x]
  }

  lemma LeaveKeepsPaired(st: ServerState, fd: ClientFd)
    requires Paired(st)
    ensures Paired(ServerLeave(st, fd))
    ensures ServerLeave(st, fd).pair[fd] == 0
    ensures forall x: Fd :: ServerLeave(st, fd).pair[x] != st.pair[x] ==> x == fd || x == st.pair[fd]
  {
    var partner, st' := st.pair[fd], ServerLeave(st, fd);
    forall x: Fd | st'.pair[x] != 0 ensures st'.pair[x] != x && st'.pair[st'.pair[x]] == x && st'.isDone[x] {
      if partner != 0 {
        assert x != fd && x != partner;
        assert st.pair[partner] == fd;
      }
      OthersStayPaired(st, fd, x);
    }
  }

  // A pair that neither leaves nor is left is not touched.
  lemma OthersStayPaired(st: ServerState, fd: ClientFd, x: Fd)
    requires Paired(st) && x != fd && x != st.pair[fd] && st.pair[x] != 0
    ensures var st' := ServerLeave(st, fd);
      st'.pair[x] == st.pair[x] && st'.pair[st.pair[x]] == x && st'.isDone[x]
  {
    var y := st.pair[x];
    assert st.pair[y] == x && st.isDone[x];
    assert y != fd && y != st.pair[fd];
  }

  lemma PairKeepsPaired(st: ServerState, choice: Option<(Fd, Fd)>)
    requires Paired(st)
    requires choice.Some? ==>
      var (x, y) := choice.value; x != 0 && y != 0 && x != y && !st.isDone[x] && !st.isDone[y]
    ensures Paired(ServerPair(st, choice))
  {
  }

  // A request clears isDone without looking at pair, so it keeps the table sound
  // exactly when the client has no partner.
  lemma TryMatchKeepsPairedIff(st: ServerState, fd: ClientFd)
    requires Paired(st)
    ensures Paired(ServerTryMatch(st, fd)) <==> st.pair[fd] == 0
  {
    if st.pair[fd] != 0 {
      assert !ServerTryMatch(st, fd).isDone[fd];
    }
  }

  // What follows then: with x and y paired, x asks again and is paired with z, and y is
  // left pointing at someone else's partner.
  lemma SecondRequestOrphansPartner(st: ServerState, x: ClientFd, y: ClientFd, z: ClientFd)
    requires Paired(st) && st.pair[x] == y && st.pair[z] == 0 && st.isDone[z] && x != z && y != z
    ensures var st' := ServerTryMatch(ServerTryMatch(st, x), z);
      && !st'.isDone[z] && !st'.isDone[x]
      && var after := ServerPair(st', Some((z, x)));
         after.pair[y] == x && after.pair[x] == z
  {
  }

  // ---------------------------------------------------------------- answers on the wire

  lemma {:induction false} QueueHoldsClients(log: seq<Event>)
    ensures forall e <- QueueOf(log) :: e.fd != 0
  {
    if log != [] {
      QueueHoldsClients(log[..|log| - 1]);
    }
  }

  // No answer ever names the requester itself, or descriptor 0.
  lemma {:induction false} MatchedUsersAreOthers(queue: seq<Entry>, isDone: Flags, req: Request)
    requires forall e <- queue :: e.fd != 0
    ensures forall y <- MatchedUsers(queue, isDone, req) :: y != req.fd && y != 0
  {
    if |queue| > 0 {
      assert forall e <- queue[1..] :: e in queue;
      MatchedUsersAreOthers(queue[1..], isDone, req);
    }
  }

  lemma {:induction false} FirstWaitingIsWaiting(records: seq<Token>, isDone: Flags)
    requires forall t <- records :: t.Record?
    ensures FirstWaiting(records, isDone).Some? ==>
      var (x, y) := FirstWaiting(records, isDone).value;
      Record(SendMatch, x, y) in records && !isDone[x] && !isDone[y]
  {
    if |records| > 0 {
      assert records[0] == Record(records[0].kind, records[0].fd, records[0].matchedFd);
      assert records[0] in records && forall t <- records[1..] :: t in records;
      FirstWaitingIsWaiting(records[1..], isDone);
    }
  }

  lemma ChoiceIsSound(w: World)
    requires Agrees(w) && Enabled(w.sys, Collect)
    ensures Choice(w.sys).Some? ==>
      var (x, y) := Choice(w.sys).value;
      x != 0 && y != 0 && x != y && !w.sys.server.isDone[x] && !w.sys.server.isDone[y]
  {
    var v, rest := NextAnswer(w);
    var view, req := w.hist.log[..v], Requests(w.hist.log)[w.hist.collected];
    AnswerIsSelfDelimited(view, req, rest);
    CandidatesAreOthers(view, req);
    hide Agrees, AnswerFrom, Candidates, QueueOf, DoneOf, Requests, HasGroup, FirstWaiting;
    var records := GroupRecords(w.sys.outbox[w.sys.server.matched]);
    FirstWaitingIsWaiting(records, w.sys.server.isDone);
    if Choice(w.sys).Some? {
      var i :| 0 <= i < |records| && records[i] == Record(SendMatch, Choice(w.sys).value.0, Choice(w.sys).value.1);
      assert records[i].matchedFd in Candidates(QueueOf(view), DoneOf(view), req);
    }
  }

  lemma CandidatesAreOthers(view: seq<Event>, req: Request)
    ensures forall y <- Candidates(QueueOf(view), DoneOf(view), req) :: y != req.fd && y != 0
  {
    hide QueueOf, DoneOf;
    QueueHoldsClients(view);
    MatchedUsersAreOthers(QueueOf(view), DoneOf(view), req);
  }

  // ---------------------------------------------------------------- every run

  // In a quiet run nobody who has a partner sends try_match.
  ghost predicate QuietStep(w: World, a: Action) {
    a.TryMatch? ==> w.sys.server.pair[a.fd] == 0
  }

  ghost predicate Quiet(acts: seq<Action>) {
    acts == [] || (Quiet(acts[..|acts| - 1]) && QuietStep(Run(acts[..|acts| - 1]), acts[|acts| - 1]))
  }

  // The table is sound after every prefix of the run.
  ghost predicate AlwaysPaired(acts: seq<Action>) {
    Paired(Run(acts).sys.server) && (acts == [] || AlwaysPaired(acts[..|acts| - 1]))
  }

  lemma StepKeepsPairedIff(w: World, a: Action)
    requires Agrees(w) && Paired(w.sys.server)
    ensures Paired(Advance(w, a).sys.server) <==> QuietStep(w, a)
  {
    if Enabled(w.sys, a) {
      match a
      case TryMatch(fd, _) => TryMatchKeepsPairedIff(w.sys.server, fd);
      case Leave(fd) => LeaveKeepsPaired(w.sys.server, fd);
      case Collect =>
        ChoiceIsSound(w);
        PairKeepsPaired(w.sys.server, Choice(w.sys));
      case ChildMatch(_) =>
      case ChildInbox(_) =>
    }
  }

  // In every run, descriptors reused or not, the partner table stays sound throughout
  // exactly when the run is quiet.
  lemma {:induction false} PairedExactlyInQuietRuns(acts: seq<Action>)
    ensures AlwaysPaired(acts) <==> Quiet(acts)
  {
    if acts != [] {
      var front := acts[..|acts| - 1];
      PairedExactlyInQuietRuns(front);
      RunAgrees(front);
      if Paired(Run(front).sys.server) {
        StepKeepsPairedIff(Run(front), acts[|acts| - 1]);
      }
    }
  }
}
