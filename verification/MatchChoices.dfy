/** What the server makes of an answer in every run, with clients that ask twice, leave and
    come back: told from the broadcasts alone, without tables. */
module MatchChoices {
  import opened Matchmaking
  import opened MatchSystem
  import opened MatchHistory
  import opened MatchSequential
  import opened MatchProfiles
  import opened Options

  // Request i is this user's and stands: the user has neither left nor been paired since.
  ghost predicate Stands(log: seq<Event>, i: nat, fd: Fd) {
    i < |Requests(log)| && Requests(log)[i].fd == fd && !RemovedSince(log, ArrivalOf(log, i), fd)
  }

  ghost predicate Waits(log: seq<Event>, fd: Fd) {
    exists i: nat :: Stands(log, i, fd)
  }

  // ---------------------------------------------------------------- the flags

  lemma StandsAfterRequest(front: seq<Event>, r: Request, i: nat, fd: Fd)
    ensures Stands(front + [New(r)], i, fd) <==> Stands(front, i, fd) || (i == |Requests(front)| && r.fd == fd)
  {
    hide ArrivalOf, RemovedSince, Requests;
    ArrivalOfNewest(front, r);
    if i < |Requests(front)| {
      ArrivalInPrefix(front, New(r), i);
      RemovedSinceGrows(front, New(r), ArrivalOf(front, i), fd);
    } else if r.fd == fd {
      NothingSinceNewest(front, r);
    }
  }

  lemma StandsAfterRemoval(front: seq<Event>, a: Fd, b: Fd, i: nat, fd: Fd)
    ensures Stands(front + [Del(a, b)], i, fd) <==> Stands(front, i, fd) && a != fd && b != fd
  {
    hide ArrivalOf, RemovedSince, Requests;
    DeletionLogged(front, a, b);
    if i < |Requests(front)| {
      ArrivalInPrefix(front, Del(a, b), i);
      RemovedSinceGrows(front, Del(a, b), ArrivalOf(front, i), fd);
    }
  }

  // A user's flag is down exactly while one of its requests stands.
  lemma {:induction false} DoneIffNotWaiting(log: seq<Event>, fd: Fd)
    ensures DoneOf(log)[fd] <==> !Waits(log, fd)
  {
    hide ArrivalOf, RemovedSince, Stands;
    if log == [] {
      NothingStands(fd);
    } else {
      var front, last := log[..|log| - 1], log[|log| - 1];
      assert log == front + [last];
      DoneIffNotWaiting(front, fd);
      match last
      case New(r) => WaitsAfterRequest(front, r, fd);
      case Del(a, b) => WaitsAfterRemoval(front, a, b, fd);
    }
  }

  lemma NothingStands(fd: Fd)
    ensures !Waits([], fd)
  {
    assert forall i: nat :: !Stands([], i, fd);
  }

  lemma WaitsAfterRequest(front: seq<Event>, r: Request, fd: Fd)
    ensures Waits(front + [New(r)], fd) <==> Waits(front, fd) || r.fd == fd
  {
    hide Stands;
    forall i: nat
      ensures Stands(front + [New(r)], i, fd) <==> Stands(front, i, fd) || (i == |Requests(front)| && r.fd == fd)
    {
      StandsAfterRequest(front, r, i, fd);
    }
    assert r.fd == fd ==> Stands(front + [New(r)], |Requests(front)|, fd);
  }

  lemma WaitsAfterRemoval(front: seq<Event>, a: Fd, b: Fd, fd: Fd)
    ensures Waits(front + [Del(a, b)], fd) <==> Waits(front, fd) && a != fd && b != fd
  {
    hide Stands;
    forall i: nat ensures Stands(front + [Del(a, b)], i, fd) <==> Stands(front, i, fd) && a != fd && b != fd {
      StandsAfterRemoval(front, a, b, i, fd);
    }
  }

  // ---------------------------------------------------------------- the scan and the choice

  ghost predicate EntryOffers(e: Entry, asked: Flags, req: Request, now: Flags) {
    && e.fd != -1 && e.fd != req.fd && !asked[e.fd] && !now[e.fd]
    && SuitEachOther(req.profile, e.profile)
  }

  // The first entry that still offers a partner when the server looks, unless the
  // requester's own comes first.
  lemma {:induction false} FirstOffer(queue: seq<Entry>, asked: Flags, req: Request, now: Flags) returns (j: nat)
    requires !now[req.fd]
    ensures j <= |queue| && forall i :: 0 <= i < j ==> queue[i].fd != req.fd && !EntryOffers(queue[i], asked, req, now)
    ensures j < |queue| && queue[j].fd != req.fd ==> EntryOffers(queue[j], asked, req, now)
    ensures FirstWaiting(MatchRecords(req.fd, MatchedUsers(queue, asked, req)), now) ==
            if j < |queue| && queue[j].fd != req.fd then Some((req.fd as Fd, queue[j].fd as Fd)) else None
  {
    if queue == [] || queue[0].fd == req.fd {
      j := 0;
    } else {
      var rest := MatchedUsers(queue[1..], asked, req);
      if EntryOffers(queue[0], asked, req, now) {
        j := 0;
      } else {
        j := FirstOffer(queue[1..], asked, req, now);
        j := j + 1;
        if MatchedUsers(queue, asked, req) != rest {
          assert MatchRecords(req.fd, [queue[0].fd] + rest)[1..] == MatchRecords(req.fd, rest);
        }
      }
    }
  }

  // ---------------------------------------------------------------- every run

  // Request i offers its user to req: it stands in the view the answer was worked out
  // from, its user is still waiting now, and the two suit each other.
  ghost predicate Offers(log: seq<Event>, view: seq<Event>, req: Request, i: nat) {
    && i < |Requests(view)|
    && var other := Requests(view)[i];
       other.fd != req.fd && Stands(view, i, other.fd) && Waits(log, other.fd)
       && SuitEachOther(req.profile, other.profile)
  }

  lemma EntryOffersIff(log: seq<Event>, view: seq<Event>, req: Request, i: nat)
    requires i < |QueueOf(view)|
    ensures |QueueOf(view)| == |Requests(view)|
    ensures EntryOffers(QueueOf(view)[i], DoneOf(view), req, DoneOf(log)) <==> Offers(log, view, req, i)
    ensures QueueOf(view)[i].fd == req.fd <==> Stands(view, i, req.fd)
    ensures Offers(log, view, req, i) ==> QueueOf(view)[i].fd == Requests(view)[i].fd
  {
    hide QueueOf, DoneOf, Requests, ArrivalOf, RemovedSince, Waits, SuitEachOther;
    EntriesAreRequests(view, i);
    EntryIsErasedIff(view, i);
    var fd := Requests(view)[i].fd;
    DoneIffNotWaiting(log, fd);
    DoneIffNotWaiting(view, fd);
    if Stands(view, i, fd) {
      StandingWaits(view, i, fd);
    }
  }

  lemma StandingWaits(log: seq<Event>, i: nat, fd: Fd)
    requires Stands(log, i, fd)
    ensures Waits(log, fd)
  {
  }

  // What the scan comes to, in requests: the first that offers its user, unless one of the
  // requester's own that stands comes first.
  ghost predicate ComesTo(log: seq<Event>, view: seq<Event>, req: Request, j: nat) {
    && j <= |Requests(view)|
    && (forall i: nat :: i < j ==> !Stands(view, i, req.fd) && !Offers(log, view, req, i))
    && (j < |Requests(view)| ==> Stands(view, j, req.fd) || Offers(log, view, req, j))
  }

  ghost function Chosen(view: seq<Event>, req: Request, j: nat): Option<(Fd, Fd)> {
    if j < |Requests(view)| && Requests(view)[j].fd != req.fd then Some((req.fd, Requests(view)[j].fd)) else None
  }

  lemma ChoiceFromLog(log: seq<Event>, view: seq<Event>, req: Request) returns (j: nat)
    requires Waits(log, req.fd) && Waits(view, req.fd)
    ensures ComesTo(log, view, req, j)
    ensures FirstWaiting(MatchRecords(req.fd, Candidates(QueueOf(view), DoneOf(view), req)), DoneOf(log)) ==
            Chosen(view, req, j)
  {
    hide QueueOf, DoneOf, Requests, Stands, Waits, Offers, EntryOffers, FirstWaiting;
    DoneIffNotWaiting(log, req.fd);
    DoneIffNotWaiting(view, req.fd);
    QueueHasOneEntryPerRequest(view);
    j := FirstOffer(QueueOf(view), DoneOf(view), req, DoneOf(log));
    forall i: nat | i <= j && i < |QueueOf(view)|
      ensures EntryOffers(QueueOf(view)[i], DoneOf(view), req, DoneOf(log)) <==> Offers(log, view, req, i)
      ensures QueueOf(view)[i].fd == req.fd <==> Stands(view, i, req.fd)
    {
      EntryOffersIff(log, view, req, i);
    }
    if j < |Requests(view)| {
      EntryOffersIff(log, view, req, j);
      ScanStopsAt(log, view, req, j);
    }
  }

  lemma ScanStopsAt(log: seq<Event>, view: seq<Event>, req: Request, j: nat)
    ensures Stands(view, j, req.fd) ==> Requests(view)[j].fd == req.fd
    ensures Offers(log, view, req, j) ==> j < |Requests(view)| && Requests(view)[j].fd != req.fd
  {
    hide Requests;
  }

  // The choice in every run. The requester is paired with the sender of the first request
  // that suits its own, stood when the child had read so far and whose sender is still
  // waiting now; unless the requester itself is not waiting now or was not then, or a
  // request of its own that stood comes first.
  lemma EveryChoice(acts: seq<Action>) returns (v: nat, j: nat)
    requires Enabled(Run(acts).sys, Collect)
    ensures AnswersFrom(Run(acts), v, Run(acts).hist.collected)
    ensures var w := Run(acts);
      var log, view, req := w.hist.log, w.hist.log[..v], Requests(w.hist.log)[w.hist.collected];
      if Waits(log, req.fd) && Waits(view, req.fd) then
        ComesTo(log, view, req, j) && Choice(w.sys) == Chosen(view, req, j)
      else Choice(w.sys) == None
  {
    RunAgrees(acts);
    var w := Run(acts);
    var rest;
    v, rest := NextAnswer(w);
    var log, view, req := w.hist.log, w.hist.log[..v], Requests(w.hist.log)[w.hist.collected];
    RequestsOfPrefix(log, v);
    AnswerIsSelfDelimited(view, req, rest);
    j := 0;
    FlagsFollowLog(w);
    hide Run, Agrees, AnswerFrom, Candidates, QueueOf, DoneOf, Requests, HasGroup, Waits, ComesTo, FirstWaiting;
    DoneIffNotWaiting(log, req.fd);
    DoneIffNotWaiting(view, req.fd);
    if Waits(log, req.fd) && Waits(view, req.fd) {
      j := ChoiceFromLog(log, view, req);
      NoMatchMeansNone(DoneOf(log));
    } else {
      NobodyForTheDone(QueueOf(view), DoneOf(view), req, DoneOf(log));
    }
  }

  lemma FlagsFollowLog(w: World)
    requires Agrees(w)
    ensures w.sys.server.isDone == DoneOf(w.hist.log)
  {
  }

  lemma NoMatchMeansNone(now: Flags)
    ensures FirstWaiting([Record(NoMatch, 0, 0)], now) == FirstWaiting([], now) == None
  {
    assert [Record(NoMatch, 0, 0)][1..] == [];
  }

  lemma NobodyForTheDone(queue: seq<Entry>, asked: Flags, req: Request, now: Flags)
    requires asked[req.fd] || now[req.fd]
    ensures var matched := Candidates(queue, asked, req);
      FirstWaiting(if |matched| == 0 then [Record(NoMatch, 0, 0)] else MatchRecords(req.fd, matched), now) == None
  {
    hide MatchedUsers;
    NoMatchMeansNone(now);
    if now[req.fd] {
      DoneRequesterGetsNothing(req.fd, Candidates(queue, asked, req), now);
    }
  }
}
