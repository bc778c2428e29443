/** One child process of the matchmaker, with its tables updated in place. */
module MatchChild {
  import opened Matchmaking

  class Child {
    var userQueue: seq<Entry>
    var matchQueue: seq<Request>
    const isDone: array<bool>

    ghost predicate Valid() {
      isDone.Length == FD_LIMIT
    }

    ghost function View(): ChildState
      reads this, isDone
      requires Valid()
    {
      ChildState(userQueue, matchQueue, isDone[..])
    }

    constructor ()
      ensures Valid() && fresh(isDone)
      ensures View() == ChildInit()
    {
      userQueue, matchQueue := [], [];
      isDone := new bool[FD_LIMIT](_ => true);
    }

    // The scan of user_queue for one popped request: the requester's own filter is asked
    // first, and the candidate's only if that said yes.
    method FindMatches(req: Request) returns (matched: seq<Fd>)
      requires Valid() && !isDone[req.fd]
      ensures matched == MatchedUsers(userQueue, isDone[..], req)
    {
      matched := [];
      var i := 0;
      assert userQueue[0..] == userQueue;
      while i < |userQueue|
        invariant i <= |userQueue|
        invariant matched + MatchedUsers(userQueue[i..], isDone[..], req) ==
                  MatchedUsers(userQueue, isDone[..], req)
        decreases |userQueue| - i
      {
        ghost var rest := userQueue[i..];
        assert rest[0] == userQueue[i] && rest[1..] == userQueue[i + 1..];
        var candidate := userQueue[i];
        if req.fd == candidate.fd {
          break;
        }
        i := i + 1;
        if candidate.fd == -1 || isDone[candidate.fd] {
          continue;
        }
        var result := -1;
        if req.profile.filter(candidate.profile.user) && candidate.profile.filter(req.profile.user) {
          result := 1;
        }
        if result == 1 {
          matched := matched + [candidate.fd];
        }
      }
    }

    // Pops one request and writes its answer to the pipe.
    method MatchStep() returns (written: seq<Token>)
      requires Valid() && |matchQueue| > 0
      modifies this`matchQueue
      ensures Valid()
      ensures View() == ChildPop(old(View()))
      ensures written == ChildAnswer(old(View()))
    {
      var req := matchQueue[0];
      var matched := [];
      if !isDone[req.fd] {
        matched := FindMatches(req);
      }
      matchQueue := matchQueue[1..];
      if |matched| > 0 {
        written := [Count(|matched|)];
        var i := 0;
        while i < |matched|
          invariant i <= |matched|
          invariant written == [Count(|matched|)] + MatchRecords(req.fd, matched)[..i]
        {
          written := written + [Record(SendMatch, req.fd, matched[i])];
          i := i + 1;
        }
      } else {
        written := [Count(1), Record(NoMatch, 0, 0)];
      }
    }

    method EraseUsers(a: Fd, b: Fd)
      modifies this`userQueue
      ensures userQueue == Erase(old(userQueue), a, b)
    {
      var i := 0;
      while i < |userQueue|
        invariant i <= |userQueue| == |old(userQueue)|
        invariant forall k :: 0 <= k < i ==> userQueue[k] == EraseEntry(old(userQueue)[k], a, b)
        invariant forall k :: i <= k < |userQueue| ==> userQueue[k] == old(userQueue)[k]
      {
        if userQueue[i].fd == a || userQueue[i].fd == b {
          userQueue := userQueue[i := userQueue[i].(fd := -1)];
        }
        i := i + 1;
      }
    }

    method InboxStep(msg: Message)
      requires Valid()
      modifies this, isDone
      ensures Valid()
      ensures View() == ChildReceive(old(View()), msg)
    {
      match msg {
        case Delete(a, b) =>
          isDone[a] := true;
          isDone[b] := true;
          EraseUsers(a, b);
        case ToMatch(fd, profile) =>
          isDone[fd] := false;
          userQueue := userQueue + [Entry(fd, profile)];
          matchQueue := matchQueue + [Request(fd, profile)];
        case PutInQueue(fd, profile) =>
          isDone[fd] := false;
          userQueue := userQueue + [Entry(fd, profile)];
      }
    }
  }
}
