/** The server's event loop bodies, with isDone and pair updated in place. */
module MatchServer {
  import opened Matchmaking
  import opened Options

  class Server {
    const isDone: array<bool>
    const pair: array<Fd>
    var matched: Turn
    var current: Turn

    ghost predicate Valid() {
      isDone.Length == FD_LIMIT && pair.Length == FD_LIMIT
    }

    ghost function View(): ServerState
      reads this, isDone, pair
      requires Valid()
    {
      ServerState(isDone[..], pair[..], matched, current)
    }

    constructor ()
      ensures Valid() && fresh(isDone) && fresh(pair)
      ensures View() == ServerInit()
    {
      isDone := new bool[FD_LIMIT](_ => true);
      pair := new Fd[FD_LIMIT](_ => 0);
      matched, current := 0, 0;
    }

    // Reads one group from the child whose turn it is; `pipe` is what its pipe holds.
    // The result says what is left in the pipe and which two users were paired.
    method Collect(pipe: seq<Token>) returns (left: seq<Token>, paired: Option<(Fd, Fd)>)
      requires Valid() && HasGroup(pipe)
      modifies this`matched, isDone, pair
      ensures Valid()
      ensures left == AfterGroup(pipe)
      ensures paired == FirstWaiting(GroupRecords(pipe), old(isDone[..]))
      ensures View() == ServerPair(old(View()), paired)
    {
      var matchNum := pipe[0].n;
      left := pipe[1..];
      matched := NextTurn(matched);
      var pool: seq<(Fd, Fd)> := [];
      ghost var records := GroupRecords(pipe);
      assert records[0..] == records;
      var i := 0;
      while i < matchNum
        invariant i <= matchNum
        invariant left == pipe[1 + i..]
        invariant |pool| == 0 ==> FirstWaiting(records, isDone[..]) == FirstWaiting(records[i..], isDone[..])
        invariant |pool| > 0 ==> FirstWaiting(records, isDone[..]) == Some(pool[0])
      {
        var record := left[0];
        assert record == records[i] && records[i..][1..] == records[i + 1..];
        left := left[1..];
        i := i + 1;
        if isDone[record.fd] || isDone[record.matchedFd] {
          continue;
        }
        if record.kind == SendMatch {
          pool := pool + [(record.fd, record.matchedFd)];
        }
      }
      if |pool| == 0 {
        return left, None;
      }
      var (x, y) := pool[0];
      isDone[x] := true;
      isDone[y] := true;
      pair[x] := y;
      pair[y] := x;
      paired := Some(pool[0]);
    }

    method TryMatch(fd: ClientFd, profile: Profile) returns (sent: seq<Message>)
      requires Valid()
      modifies this`current, isDone
      ensures Valid()
      ensures View() == ServerTryMatch(old(View()), fd)
      ensures |sent| == CHILD_NUM
      ensures forall c :: 0 <= c < CHILD_NUM ==> sent[c] == Dispatch(old(current), c, fd, profile)
    {
      isDone[fd] := false;
      sent := seq(CHILD_NUM, _ => ToMatch(fd, profile));
      var i := 0;
      while i < CHILD_NUM
        invariant i <= CHILD_NUM && |sent| == CHILD_NUM
        invariant forall c :: 0 <= c < i ==> sent[c] == Dispatch(current, c, fd, profile)
        invariant forall c :: i <= c < CHILD_NUM ==> sent[c] == ToMatch(fd, profile)
      {
        if i != current {
          sent := sent[i := PutInQueue(fd, profile)];
        }
        i := i + 1;
      }
      current := NextTurn(current);
    }

    // quit, end of stream and a reset connection.
    method Leave(fd: ClientFd) returns (sent: Message)
      requires Valid()
      modifies isDone, pair
      ensures Valid()
      ensures View() == ServerLeave(old(View()), fd)
      ensures sent == Delete(fd, old(pair[fd]))
    {
      isDone[fd] := true;
      isDone[pair[fd]] := true;
      sent := Delete(fd, pair[fd]);
      if pair[fd] == 0 {
        return;
      }
      pair[pair[fd]] := 0;
      pair[fd] := 0;
    }
  }
}
