/** When every client asks once, the server, its children and their pipes together
    behave like one sequential matcher that serves requests in arrival order and pairs
    each with its earliest waiting compatible predecessor. */
module MatchSequential {
  import opened Matchmaking
  import opened MatchSystem
  import opened MatchHistory
  import opened MatchPairing
  import opened Options

  // ---------------------------------------------------------------- the reference

  datatype Matcher = Matcher(requests: seq<Request>, isDone: Flags, pair: Partners, served: nat)

  function EmptyMatcher(): Matcher {
    Matcher([], AllDone(), NoPartners(), 0)
  }

  predicate Suits(requests: seq<Request>, i: nat, k: nat, isDone: Flags)
    requires i < |requests| && k < |requests|
  {
    !isDone[requests[i].fd] && Compatible(requests[k].profile, requests[i].profile)
  }

  function FirstPartner(requests: seq<Request>, i: nat, k: nat, isDone: Flags): (r: Option<nat>)
    requires i <= k < |requests|
    ensures r.Some? ==> i <= r.value < k
    decreases k - i
  {
    if i == k then None
    else if Suits(requests, i, k, isDone) then Some(i)
    else FirstPartner(requests, i + 1, k, isDone)
  }

  lemma {:induction false} FirstPartnerIsEarliest(requests: seq<Request>, i: nat, k: nat, isDone: Flags)
    requires i <= k < |requests|
    ensures match FirstPartner(requests, i, k, isDone)
      case None => forall j :: i <= j < k ==> !Suits(requests, j, k, isDone)
      case Some(p) => i <= p < k && Suits(requests, p, k, isDone)
                      && forall j :: i <= j < p ==> !Suits(requests, j, k, isDone)
    decreases k - i
  {
    if i < k && !Suits(requests, i, k, isDone) {
      FirstPartnerIsEarliest(requests, i + 1, k, isDone);
    }
  }

  function Verdict(m: Matcher): Option<(Fd, Fd)>
    requires m.served < |m.requests|
  {
    var req := m.requests[m.served];
    if m.isDone[req.fd] then None
    else
      match FirstPartner(m.requests, 0, m.served, m.isDone)
      case None => None
      case Some(p) => Some((req.fd, m.requests[p].fd))
  }

  function Serve(m: Matcher): Matcher
    requires m.served < |m.requests|
  {
    var m' := m.(served := m.served + 1);
    match Verdict(m)
    case None => m'
    case Some((x, y)) => m'.(isDone := m.isDone[x := true][y := true], pair := m.pair[x := y][y := x])
  }

  function Depart(m: Matcher, fd: ClientFd): Matcher {
    var partner := m.pair[fd];
    m.(isDone := m.isDone[fd := true][partner := true],
       pair := if partner == 0 then m.pair else m.pair[partner := 0][fd := 0])
  }

  function MatcherStep(m: Matcher, a: Action): Matcher {
    match a
    case TryMatch(fd, profile) =>
      m.(requests := m.requests + [Request(fd, profile)], isDone := m.isDone[fd := false])
    case Leave(fd) => Depart(m, fd)
    case Collect => if m.served < |m.requests| then Serve(m) else m
    case ChildMatch(_) => m
    case ChildInbox(_) => m
  }

  function MatcherRun(acts: seq<Action>): Matcher {
    if |acts| == 0 then EmptyMatcher()
    else MatcherStep(MatcherRun(acts[..|acts| - 1]), acts[|acts| - 1])
  }

  // ---------------------------------------------------------------- one request per client

  ghost predicate DistinctClients(requests: seq<Request>) {
    forall i, j :: 0 <= i < j < |requests| ==> requests[i].fd != requests[j].fd
  }

  lemma {:induction false} RequestsOfPrefix(log: seq<Event>, v: nat)
    requires v <= |log|
    ensures Requests(log[..v]) <= Requests(log)
    decreases |log|
  {
    if v == |log| {
      assert log[..v] == log;
    } else {
      assert log[..|log| - 1][..v] == log[..v];
      RequestsOfPrefix(log[..|log| - 1], v);
    }
  }

  lemma PrefixesAreDistinct(log: seq<Event>, v: nat)
    requires v <= |log| && DistinctClients(Requests(log))
    ensures DistinctClients(Requests(log[..v]))
  {
    RequestsOfPrefix(log, v);
  }

  // A child's queue lists the requests it has seen; only done users are erased from it.
  lemma {:induction false} QueueListsRequests(log: seq<Event>, i: nat)
    requires DistinctClients(Requests(log)) && i < |Requests(log)|
    ensures i < |QueueOf(log)|
    ensures QueueOf(log)[i].profile == Requests(log)[i].profile
    ensures QueueOf(log)[i].fd == Requests(log)[i].fd || QueueOf(log)[i].fd == -1
    ensures QueueOf(log)[i].fd == -1 ==> DoneOf(log)[Requests(log)[i].fd]
  {
    assert log != [];
    hide QueueOf, DoneOf, Requests;
    var front, last := log[..|log| - 1], log[|log| - 1];
    assert log == front + [last];
    QueueHasOneEntryPerRequest(front);
    PrefixesAreDistinct(log, |log| - 1);
    match last
    case New(r) =>
      RequestLogged(front, r);
      if i < |Requests(front)| {
        QueueListsRequests(front, i);
        assert Requests(log)[i].fd != Requests(log)[|Requests(front)|].fd;
      }
    case Del(a, b) =>
      DeletionLogged(front, a, b);
      QueueListsRequests(front, i);
  }

  lemma {:induction false} QueueHasOneEntryPerRequest(log: seq<Event>)
    ensures |QueueOf(log)| == |Requests(log)|
  {
    if log != [] {
      QueueHasOneEntryPerRequest(log[..|log| - 1]);
    }
  }

  // Once done, a user who asks only once is done for good.
  lemma {:induction false} DoneStays(log: seq<Event>, v: nat, i: nat)
    requires v <= |log| && DistinctClients(Requests(log)) && i < |Requests(log[..v])|
    requires DoneOf(log[..v])[Requests(log[..v])[i].fd]
    ensures DoneOf(log)[Requests(log[..v])[i].fd]
    decreases |log|
  {
    hide QueueOf, DoneOf, Requests;
    if v == |log| {
      assert log[..v] == log;
    } else {
      var front, last := log[..|log| - 1], log[|log| - 1];
      assert front[..v] == log[..v] && log == front + [last];
      PrefixesAreDistinct(log, |log| - 1);
      RequestsOfPrefix(front, v);
      DoneStays(front, v, i);
      match last
      case New(r) =>
        RequestLogged(front, r);
        assert Requests(log)[i].fd != Requests(log)[|Requests(front)|].fd;
      case Del(a, b) => DeletionLogged(front, a, b);
    }
  }

  // ---------------------------------------------------------------- an answer, then and now

  // The descriptors of the suitable predecessors i, i+1, ... of request k.
  ghost function Suitors(requests: seq<Request>, i: nat, k: nat, isDone: Flags): seq<Fd>
    requires i <= k < |requests|
    decreases k - i
  {
    if i == k then []
    else if Suits(requests, i, k, isDone) then [requests[i].fd] + Suitors(requests, i + 1, k, isDone)
    else Suitors(requests, i + 1, k, isDone)
  }

  lemma {:induction false} MatchedUsersAreSuitors(view: seq<Event>, i: nat, k: nat)
    requires i <= k < |Requests(view)| == |QueueOf(view)| && DistinctClients(Requests(view))
    requires !DoneOf(view)[Requests(view)[k].fd]
    ensures MatchedUsers(QueueOf(view)[i..], DoneOf(view), Requests(view)[k]) ==
            Suitors(Requests(view), i, k, DoneOf(view))
    decreases k - i
  {
    var queue := QueueOf(view);
    assert queue[i..][0] == queue[i];
    QueueListsRequests(view, i);
    if i < k {
      assert queue[i..][1..] == queue[i + 1..];
      MatchedUsersAreSuitors(view, i + 1, k);
    }
  }

  // The server keeps the first suitor who is still waiting, whichever older view the
  // list came from.
  lemma {:induction false} FirstWaitingIsFirstPartner(requests: seq<Request>, i: nat, k: nat, asked: Flags, now: Flags)
    requires i <= k < |requests| && !now[requests[k].fd]
    requires forall j :: 0 <= j < k && asked[requests[j].fd] ==> now[requests[j].fd]
    ensures FirstWaiting(MatchRecords(requests[k].fd, Suitors(requests, i, k, asked)), now) ==
            match FirstPartner(requests, i, k, now)
            case None => None
            case Some(p) => Some((requests[k].fd, requests[p].fd))
    decreases k - i
  {
    if i < k {
      FirstWaitingIsFirstPartner(requests, i + 1, k, asked, now);
      if Suits(requests, i, k, asked) {
        var rest := Suitors(requests, i + 1, k, asked);
        var records := MatchRecords(requests[k].fd, Suitors(requests, i, k, asked));
        assert records[0] == Record(SendMatch, requests[k].fd, requests[i].fd);
        assert records[1..] == MatchRecords(requests[k].fd, rest);
      }
    }
  }

  lemma {:induction false} DoneRequesterGetsNothing(fd: Fd, matched: seq<Fd>, now: Flags)
    requires now[fd]
    ensures FirstWaiting(MatchRecords(fd, matched), now) == None
  {
    if matched != [] {
      assert MatchRecords(fd, matched)[1..] == MatchRecords(fd, matched[1..]);
      DoneRequesterGetsNothing(fd, matched[1..], now);
    }
  }

  // ---------------------------------------------------------------- refinement

  ghost function Abstraction(w: World): Matcher {
    Matcher(Requests(w.hist.log), w.sys.server.isDone, w.sys.server.pair, w.hist.collected)
  }

  lemma OldViewMakesCurrentChoice(log: seq<Event>, v: nat, k: nat)
    requires v <= |log| && DistinctClients(Requests(log)) && k < |Requests(log[..v])|
    ensures Requests(log[..v]) <= Requests(log)
    ensures var view, req, now := log[..v], Requests(log)[k], DoneOf(log);
      var matched := Candidates(QueueOf(view), DoneOf(view), req);
      FirstWaiting(if |matched| == 0 then [Record(NoMatch, 0, 0)] else MatchRecords(req.fd, matched), now) ==
      Verdict(Matcher(Requests(log), now, NoPartners(), k))
  {
    var view, now, requests := log[..v], DoneOf(log), Requests(log);
    RequestsOfPrefix(log, v);
    PrefixesAreDistinct(log, v);
    var req := requests[k];
    forall j | 0 <= j <= k && DoneOf(view)[requests[j].fd] ensures now[requests[j].fd] {
      DoneStays(log, v, j);
    }
    var matched := Candidates(QueueOf(view), DoneOf(view), req);
    assert |matched| == 0 ==> FirstWaiting(MatchRecords(req.fd, matched), now) == None;
    assert [Record(NoMatch, 0, 0)][1..] == [];
    assert FirstWaiting([Record(NoMatch, 0, 0)], now) == None;
    if now[req.fd] {
      DoneRequesterGetsNothing(req.fd, matched, now);
    } else {
      QueueHasOneEntryPerRequest(view);
      assert QueueOf(view)[0..] == QueueOf(view);
      MatchedUsersAreSuitors(view, 0, k);
      SuitorsOfPrefix(Requests(view), requests, 0, k, DoneOf(view));
      FirstWaitingIsFirstPartner(requests, 0, k, DoneOf(view), now);
    }
  }

  lemma {:induction false} SuitorsOfPrefix(part: seq<Request>, all: seq<Request>, i: nat, k: nat, isDone: Flags)
    requires part <= all && i <= k < |part|
    ensures Suitors(part, i, k, isDone) == Suitors(all, i, k, isDone)
    decreases k - i
  {
    if i < k {
      SuitorsOfPrefix(part, all, i + 1, k, isDone);
    }
  }

  lemma ChoiceIsVerdict(w: World)
    requires Agrees(w) && Enabled(w.sys, Collect) && DistinctClients(Requests(w.hist.log))
    ensures w.hist.collected < |Requests(w.hist.log)|
    ensures Choice(w.sys) == Verdict(Abstraction(w))
  {
    hide ChildAgrees, FirstPartner, FirstWaiting, Requests, DoneOf, QueueOf, Candidates, HasGroup;
    var log, k := w.hist.log, w.hist.collected;
    var v, rest := NextAnswer(w);
    AnswerIsSelfDelimited(log[..v], Requests(log)[k], rest);
    OldViewMakesCurrentChoice(log, v, k);
  }

  // The actions a client could notice; polling an empty pipe is not one of them.
  ghost predicate Visible(w: World, a: Action) {
    WorldShaped(w) && Enabled(w.sys, a) && (a.TryMatch? || a.Leave? || a.Collect?)
  }

  lemma StepRefines(w: World, a: Action)
    requires Agrees(w) && DistinctClients(Requests(Advance(w, a).hist.log))
    ensures Abstraction(Advance(w, a)) ==
            if Visible(w, a) then MatcherStep(Abstraction(w), a) else Abstraction(w)
  {
    var log, log' := w.hist.log, Advance(w, a).hist.log;
    if log' != log {
      assert log'[..|log|] == log;
      PrefixesAreDistinct(log', |log|);
    }
    if Visible(w, a) && a.Collect? {
      ChoiceIsVerdict(w);
    }
  }

  ghost function VisiblePart(acts: seq<Action>): seq<Action> {
    if acts == [] then []
    else
      var front, last := acts[..|acts| - 1], acts[|acts| - 1];
      if Visible(Run(front), last) then VisiblePart(front) + [last] else VisiblePart(front)
  }

  // Every run in which nobody asks twice.
  ghost predicate EachAsksOnce(acts: seq<Action>) {
    DistinctClients(Requests(Run(acts).hist.log))
  }

  lemma EachAsksOnceInFront(acts: seq<Action>)
    requires acts != [] && EachAsksOnce(acts)
    ensures EachAsksOnce(acts[..|acts| - 1])
  {
    var w := Run(acts[..|acts| - 1]);
    var log' := Run(acts).hist.log;
    assert w.hist.log <= log';
    assert log'[..|w.hist.log|] == w.hist.log;
    PrefixesAreDistinct(log', |w.hist.log|);
  }

  // The concurrent system refines the sequential matcher.
  lemma {:induction false} RunRefinesMatcher(acts: seq<Action>)
    requires EachAsksOnce(acts)
    ensures Abstraction(Run(acts)) == MatcherRun(VisiblePart(acts))
  {
    if acts != [] {
      var front := acts[..|acts| - 1];
      EachAsksOnceInFront(acts);
      RunRefinesMatcher(front);
      RunAgrees(front);
      StepRefines(Run(front), acts[|acts| - 1]);
    }
  }

  // ---------------------------------------------------------------- what the matcher keeps

  // Nobody among the requests served so far was missed.
  ghost predicate NobodyMissed(m: Matcher) {
    && m.served <= |m.requests|
    && forall i, j :: 0 <= i < j < m.served && !m.isDone[m.requests[i].fd] && !m.isDone[m.requests[j].fd] ==>
         !Compatible(m.requests[i].profile, m.requests[j].profile)
  }

  lemma MatcherMissesNobody(m: Matcher, a: Action)
    requires NobodyMissed(m) && DistinctClients(MatcherStep(m, a).requests)
    ensures NobodyMissed(MatcherStep(m, a))
  {
    var m' := MatcherStep(m, a);
    if a.Collect? && m.served < |m.requests| {
      FirstPartnerIsEarliest(m.requests, 0, m.served, m.isDone);
    }
    forall i | 0 <= i < |m.requests|
      ensures m'.requests[i] == m.requests[i] && (a.TryMatch? ==> m.requests[i].fd != a.fd)
    {
      assert a.TryMatch? ==> m'.requests[i].fd != m'.requests[|m.requests|].fd;
    }
    forall i, j | 0 <= i < j < m'.served && !m'.isDone[m'.requests[i].fd] && !m'.isDone[m'.requests[j].fd]
      ensures !Compatible(m'.requests[i].profile, m'.requests[j].profile)
    {
      assert !m.isDone[m.requests[i].fd] && !m.isDone[m.requests[j].fd];
      if j == m.served {
        assert !Suits(m.requests, i, m.served, m.isDone);
      }
    }
  }

  // In every run in which each client asks once, whatever the interleaving of children,
  // matches, quits and disconnects: once k answers are in, no two of the first k
  // requesters who still wait are compatible.
  lemma {:induction false} NoCompatiblePairWaits(acts: seq<Action>)
    requires EachAsksOnce(acts)
    ensures NobodyMissed(Abstraction(Run(acts)))
  {
    if acts != [] {
      var front := acts[..|acts| - 1];
      EachAsksOnceInFront(acts);
      NoCompatiblePairWaits(front);
      RunAgrees(front);
      StepRefines(Run(front), acts[|acts| - 1]);
      if Visible(Run(front), acts[|acts| - 1]) {
        MatcherMissesNobody(Abstraction(Run(front)), acts[|acts| - 1]);
      }
    }
  }

  // A requester paired by its own answer gets the earliest earlier user who is
  // compatible and still waiting at that moment, and is left alone only if there is none.
  lemma AnswerPairsWithEarliest(acts: seq<Action>)
    requires EachAsksOnce(acts) && Enabled(Run(acts).sys, Collect)
    ensures var m := Abstraction(Run(acts));
      && m.served < |m.requests|
      && match Choice(Run(acts).sys)
         case Some((x, y)) =>
           && x == m.requests[m.served].fd && !m.isDone[x]
           && exists p :: 0 <= p < m.served && y == m.requests[p].fd && Suits(m.requests, p, m.served, m.isDone)
                && forall j :: 0 <= j < p ==> !Suits(m.requests, j, m.served, m.isDone)
         case None =>
           || m.isDone[m.requests[m.served].fd]
           || forall j :: 0 <= j < m.served ==> !Suits(m.requests, j, m.served, m.isDone)
  {
    RunAgrees(acts);
    ChoiceIsVerdict(Run(acts));
    var m := Abstraction(Run(acts));
    FirstPartnerIsEarliest(m.requests, 0, m.served, m.isDone);
  }

  // ---------------------------------------------------------------- single requests are quiet

  ghost predicate PartnersAsked(m: Matcher) {
    && m.served <= |m.requests|
    && forall x: Fd :: m.pair[x] != 0 ==> exists i :: 0 <= i < |m.requests| && m.requests[i].fd == x
  }

  lemma MatcherPartnersAsked(m: Matcher, a: Action)
    requires PartnersAsked(m)
    ensures PartnersAsked(MatcherStep(m, a))
  {
    var m' := MatcherStep(m, a);
    forall x: Fd | m'.pair[x] != 0 ensures exists i :: 0 <= i < |m'.requests| && m'.requests[i].fd == x {
      if m.pair[x] != 0 {
        var i :| 0 <= i < |m.requests| && m.requests[i].fd == x;
        assert m'.requests[i].fd == x;
      }
    }
  }

  lemma {:induction false} RunPartnersAsked(acts: seq<Action>)
    requires EachAsksOnce(acts)
    ensures PartnersAsked(Abstraction(Run(acts)))
  {
    if acts != [] {
      var front := acts[..|acts| - 1];
      EachAsksOnceInFront(acts);
      RunPartnersAsked(front);
      RunAgrees(front);
      StepRefines(Run(front), acts[|acts| - 1]);
      MatcherPartnersAsked(Abstraction(Run(front)), acts[|acts| - 1]);
    }
  }

  // In such a run nobody asks who is a partner, as partners have asked.
  lemma NewcomersHaveNoPartner(front: seq<Action>, fd: ClientFd, profile: Profile)
    requires EachAsksOnce(front) && EachAsksOnce(front + [TryMatch(fd, profile)])
    ensures Run(front).sys.server.pair[fd] == 0
  {
    RunPartnersAsked(front);
    var w, acts := Run(front), front + [TryMatch(fd, profile)];
    assert acts[..|front|] == front;
    hide Run;
    var log := w.hist.log;
    RunAfter(acts);
    assert Run(acts).hist.log == log + [New(Request(fd, profile))];
    RequestLogged(log, Request(fd, profile));
    var before, after := Requests(log), Requests(Run(acts).hist.log);
    assert after == before + [Request(fd, profile)];
    forall i | 0 <= i < |before| ensures before[i].fd != fd {
      assert after[i].fd != after[|before|].fd;
    }
  }

  lemma RunAfter(acts: seq<Action>)
    requires acts != []
    ensures Run(acts) == Advance(Run(acts[..|acts| - 1]), acts[|acts| - 1])
  {
  }

  // So the partner table is sound in every run in which each client asks once.
  lemma {:induction false} OneRequestEachIsQuiet(acts: seq<Action>)
    requires EachAsksOnce(acts)
    ensures Quiet(acts) && Paired(Run(acts).sys.server)
  {
    hide Run, Paired;
    if acts != [] {
      var front, last := acts[..|acts| - 1], acts[|acts| - 1];
      EachAsksOnceInFront(acts);
      OneRequestEachIsQuiet(front);
      if last.TryMatch? {
        assert acts == front + [TryMatch(last.fd, last.profile)];
        NewcomersHaveNoPartner(front, last.fd, last.profile);
      }
    }
    PairedExactlyInQuietRuns(acts);
  }
}
