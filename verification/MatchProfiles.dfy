/** Whom an answer may pair, in every run, with clients that ask twice and descriptors that
    are reused: users two of whose profiles suited each other. */
module MatchProfiles {
  import opened Matchmaking
  import opened MatchSystem
  import opened MatchHistory
  import opened MatchPairing
  import opened MatchSequential
  import opened Options

  // Entry i of a child's queue is request i, erased or not.
  lemma {:induction false} EntriesAreRequests(view: seq<Event>, i: nat)
    requires i < |QueueOf(view)|
    ensures |QueueOf(view)| == |Requests(view)|
    ensures QueueOf(view)[i].profile == Requests(view)[i].profile
    ensures QueueOf(view)[i].fd == Requests(view)[i].fd || QueueOf(view)[i].fd == -1
  {
    assert view != [];
    hide QueueOf, DoneOf, Requests;
    QueueHasOneEntryPerRequest(view);
    var front, last := view[..|view| - 1], view[|view| - 1];
    assert view == front + [last];
    QueueHasOneEntryPerRequest(front);
    match last
    case New(r) =>
      RequestLogged(front, r);
      if i < |QueueOf(front)| {
        EntriesAreRequests(front, i);
      }
    case Del(a, b) =>
      DeletionLogged(front, a, b);
      EntriesAreRequests(front, i);
  }

  // ---------------------------------------------------------------- which entries are live

  // Where in the log request i came.
  ghost function ArrivalOf(log: seq<Event>, i: nat): (n: nat)
    requires i < |Requests(log)|
    ensures n < |log| && log[n] == New(Requests(log)[i]) && |Requests(log[..n])| == i
  {
    var front := log[..|log| - 1];
    if i < |Requests(front)| then
      assert front[..ArrivalOf(front, i)] == log[..ArrivalOf(front, i)];
      ArrivalOf(front, i)
    else |log| - 1
  }

  // A departure or a pairing that concerns this user.
  ghost predicate Removes(e: Event, fd: Fd) {
    e.Del? && (e.a == fd || e.b == fd)
  }

  ghost predicate RemovedSince(log: seq<Event>, n: nat, fd: Fd) {
    exists m :: n <= m < |log| && Removes(log[m], fd)
  }

  lemma RemovedSinceGrows(front: seq<Event>, e: Event, n: nat, fd: Fd)
    requires n <= |front|
    ensures RemovedSince(front + [e], n, fd) <==> RemovedSince(front, n, fd) || Removes(e, fd)
  {
    var log := front + [e];
    assert log[|front|] == e;
    if RemovedSince(front, n, fd) {
      var m :| n <= m < |front| && Removes(front[m], fd);
      assert log[m] == front[m];
    }
  }

  lemma ArrivalInPrefix(front: seq<Event>, e: Event, i: nat)
    requires i < |Requests(front)|
    ensures i < |Requests(front + [e])| && ArrivalOf(front + [e], i) == ArrivalOf(front, i)
    ensures Requests(front + [e])[i] == Requests(front)[i]
  {
    assert (front + [e])[..|front|] == front;
  }

  lemma ArrivalOfNewest(front: seq<Event>, r: Request)
    ensures Requests(front + [New(r)]) == Requests(front) + [r]
    ensures ArrivalOf(front + [New(r)], |Requests(front)|) == |front|
  {
    RequestLogged(front, r);
    assert (front + [New(r)])[..|front|] == front;
  }

  // An entry is erased exactly when its user has left or been paired since it asked.
  lemma {:induction false} EntryIsErasedIff(view: seq<Event>, i: nat)
    requires i < |Requests(view)|
    ensures |QueueOf(view)| == |Requests(view)|
    ensures QueueOf(view)[i].fd == -1 <==> RemovedSince(view, ArrivalOf(view, i), Requests(view)[i].fd)
  {
    assert view != [];
    hide QueueOf, DoneOf, Requests, ArrivalOf, RemovedSince;
    QueueHasOneEntryPerRequest(view);
    var front, last := view[..|view| - 1], view[|view| - 1];
    assert view == front + [last];
    QueueHasOneEntryPerRequest(front);
    match last
    case New(r) =>
      RequestLogged(front, r);
      if i < |Requests(front)| {
        EntryIsErasedIff(front, i);
        ArrivalInPrefix(front, last, i);
        RemovedSinceGrows(front, last, ArrivalOf(front, i), Requests(front)[i].fd);
      } else {
        ArrivalOfNewest(front, r);
        NothingSinceNewest(front, r);
      }
    case Del(a, b) =>
      DeletionLogged(front, a, b);
      EntryIsErasedIff(front, i);
      EntriesAreRequests(front, i);
      ArrivalInPrefix(front, last, i);
      RemovedSinceGrows(front, last, ArrivalOf(front, i), Requests(front)[i].fd);
  }

  lemma NothingSinceNewest(front: seq<Event>, r: Request)
    ensures !RemovedSince(front + [New(r)], |front|, r.fd)
  {
  }

  // ---------------------------------------------------------------- whom an answer names

  // What the scan collects are users of entries that suit the requester.
  lemma {:induction false} MatchedUsersSuit(queue: seq<Entry>, isDone: Flags, req: Request, x: Fd) returns (i: nat)
    requires x in MatchedUsers(queue, isDone, req)
    ensures i < |queue| && queue[i].fd == x && !isDone[x] && SuitEachOther(req.profile, queue[i].profile)
  {
    if x in MatchedUsers(queue[1..], isDone, req) {
      i := MatchedUsersSuit(queue[1..], isDone, req, x);
      i := i + 1;
    } else {
      i := 0;
    }
  }

  // Each filter accepts the other's user.
  ghost predicate SuitEachOther(p: Profile, q: Profile) {
    p.filter(q.user) && q.filter(p.user)
  }

  // Request j of a view is x's, suits request k, and has not been followed by a departure
  // or a pairing of x there.
  ghost predicate SuitedBy(view: seq<Event>, req: Request, j: nat, x: Fd) {
    && j < |Requests(view)| && Requests(view)[j].fd == x
    && SuitEachOther(req.profile, Requests(view)[j].profile)
    && !RemovedSince(view, ArrivalOf(view, j), x)
  }

  lemma CandidatesSuit(view: seq<Event>, req: Request, x: Fd) returns (j: nat)
    requires x in Candidates(QueueOf(view), DoneOf(view), req)
    ensures SuitedBy(view, req, j, x)
  {
    hide QueueOf, DoneOf, Requests, MatchedUsers, ArrivalOf, RemovedSince;
    j := MatchedUsersSuit(QueueOf(view), DoneOf(view), req, x);
    EntriesAreRequests(view, j);
    EntryIsErasedIff(view, j);
  }

  // The group in front of the server's pipe answers request k, worked out from the first v
  // broadcasts.
  ghost predicate AnswersFrom(w: World, v: nat, k: nat) {
    && Shaped(w.sys) && v <= |w.hist.log| && k < |Requests(w.hist.log[..v])|
    && k < |Requests(w.hist.log)| && Requests(w.hist.log)[k] == Requests(w.hist.log[..v])[k]
    && AnswerFrom(w.hist.log[..v], Requests(w.hist.log)[k]) <= w.sys.outbox[w.sys.server.matched]
  }

  // Whoever the server pairs, the one is the sender of the request answered, and the other
  // asked with a profile that suits it and had neither left nor been paired since, as far
  // as the child had read when it answered.
  lemma PairWasCompatible(acts: seq<Action>) returns (v: nat, j: nat)
    requires Enabled(Run(acts).sys, Collect) && Choice(Run(acts).sys).Some?
    ensures var w := Run(acts);
      var (y, x) := Choice(w.sys).value;
      && AnswersFrom(w, v, w.hist.collected)
      && Requests(w.hist.log)[w.hist.collected].fd == y
      && SuitedBy(w.hist.log[..v], Requests(w.hist.log)[w.hist.collected], j, x)
  {
    RunAgrees(acts);
    var w := Run(acts);
    var rest;
    v, rest := NextAnswer(w);
    var log, k, x := w.hist.log, w.hist.collected, Choice(w.sys).value.1;
    RequestsOfPrefix(log, v);
    AnswerIsSelfDelimited(log[..v], Requests(log)[k], rest);
    hide Run, Agrees, AnswerFrom, Candidates, QueueOf, DoneOf, Requests, HasGroup, FirstWaiting, SuitedBy;
    var records := GroupRecords(w.sys.outbox[w.sys.server.matched]);
    FirstWaitingIsWaiting(records, w.sys.server.isDone);
    var i :| 0 <= i < |records| && records[i] == Record(SendMatch, Choice(w.sys).value.0, x);
    assert records[i].matchedFd in Candidates(QueueOf(log[..v]), DoneOf(log[..v]), Requests(log)[k]);
    j := CandidatesSuit(log[..v], Requests(log)[k], x);
  }

  ghost predicate AskedOnce(requests: seq<Request>, fd: Fd, i: nat) {
    && i < |requests| && requests[i].fd == fd
    && forall n :: 0 <= n < |requests| && requests[n].fd == fd ==> n == i
  }

  // So two users who have each asked once are only ever paired if they suit each other,
  // whatever other clients do.
  lemma PairOfNewcomersIsCompatible(acts: seq<Action>, i: nat, j: nat)
    requires Enabled(Run(acts).sys, Collect) && Choice(Run(acts).sys).Some?
    requires var w := Run(acts);
      var (y, x) := Choice(w.sys).value;
      AskedOnce(Requests(w.hist.log), y, i) && AskedOnce(Requests(w.hist.log), x, j)
    ensures SuitEachOther(Requests(Run(acts).hist.log)[i].profile, Requests(Run(acts).hist.log)[j].profile)
  {
    var log := Run(acts).hist.log;
    var v, n := PairWasCompatible(acts);
    RequestsOfPrefix(log, v);
    hide Run, Requests, Choice, Enabled, SuitEachOther, AnswerFrom, RemovedSince, ArrivalOf;
  }
}
