/** The matchmaker's data and its sequential building blocks, as values: what a child
    does with one request and with one message, and what the server does with one
    client event and with one answer. The classes in MatchChild and MatchServer run
    these on mutable tables; MatchSystem interleaves them. */
module Matchmaking {
  import opened Options

  const CHILD_NUM := 20
  const FD_LIMIT := 1200

  type Fd = x: int | 0 <= x < FD_LIMIT
  // File descriptor 0 is the server's own stdin, so no client ever has it.
  type ClientFd = x: int | 1 <= x < FD_LIMIT witness 1
  // An entry of a child's queue is erased by setting its descriptor to -1.
  type QueueFd = x: int | -1 <= x < FD_LIMIT

  datatype User = User(name: string, age: nat, gender: string, introduction: string)

  // The compiled filter_function of a request is a total predicate here; a filter that
  // crashes answers "no".
  datatype Profile = Profile(user: User, filter: User -> bool)

  predicate Likes(a: Profile, b: Profile) {
    a.filter(b.user)
  }

  predicate Compatible(a: Profile, b: Profile) {
    Likes(a, b) && Likes(b, a)
  }

  type Flags = s: seq<bool> | |s| == FD_LIMIT witness seq(FD_LIMIT, _ => true)
  type Partners = s: seq<Fd> | |s| == FD_LIMIT witness seq(FD_LIMIT, _ => 0)

  function AllDone(): Flags {
    seq(FD_LIMIT, _ => true)
  }

  function NoPartners(): Partners {
    seq(FD_LIMIT, _ => 0)
  }

  datatype Entry = Entry(fd: QueueFd, profile: Profile)
  datatype Request = Request(fd: ClientFd, profile: Profile)

  // Server to child.
  datatype Message =
    | ToMatch(fd: ClientFd, profile: Profile)
    | PutInQueue(fd: ClientFd, profile: Profile)
    | Delete(a: Fd, b: Fd)

  // Child to server: a count, then that many records.
  datatype Kind = SendMatch | NoMatch
  datatype Token = Count(n: nat) | Record(kind: Kind, fd: Fd, matchedFd: Fd)

  // ---------------------------------------------------------------- child

  datatype ChildState = ChildState(userQueue: seq<Entry>, matchQueue: seq<Request>, isDone: Flags)

  function ChildInit(): ChildState {
    ChildState([], [], AllDone())
  }

  // The candidates the child still sees, in queue order, up to the requester's own entry.
  function MatchedUsers(queue: seq<Entry>, isDone: Flags, req: Request): seq<Fd> {
    if |queue| == 0 || queue[0].fd == req.fd then []
    else if queue[0].fd == -1 || isDone[queue[0].fd] || !Compatible(req.profile, queue[0].profile) then
      MatchedUsers(queue[1..], isDone, req)
    else
      [queue[0].fd] + MatchedUsers(queue[1..], isDone, req)
  }

  function Candidates(queue: seq<Entry>, isDone: Flags, req: Request): seq<Fd> {
    if isDone[req.fd] then [] else MatchedUsers(queue, isDone, req)
  }

  function MatchRecords(fd: Fd, matched: seq<Fd>): seq<Token> {
    seq(|matched|, i requires 0 <= i < |matched| => Record(SendMatch, fd, matched[i]))
  }

  // One answer on the wire. "No match" is a group of one record as well.
  function Reply(fd: Fd, matched: seq<Fd>): seq<Token> {
    if |matched| == 0 then [Count(1), Record(NoMatch, 0, 0)]
    else [Count(|matched|)] + MatchRecords(fd, matched)
  }

  function ChildAnswer(st: ChildState): seq<Token>
    requires |st.matchQueue| > 0
  {
    Reply(st.matchQueue[0].fd, Candidates(st.userQueue, st.isDone, st.matchQueue[0]))
  }

  function ChildPop(st: ChildState): ChildState
    requires |st.matchQueue| > 0
  {
    st.(matchQueue := st.matchQueue[1..])
  }

  function EraseEntry(e: Entry, a: Fd, b: Fd): Entry {
    if e.fd == a || e.fd == b then e.(fd := -1) else e
  }

  function Erase(queue: seq<Entry>, a: Fd, b: Fd): seq<Entry> {
    seq(|queue|, i requires 0 <= i < |queue| => EraseEntry(queue[i], a, b))
  }

  function ChildReceive(st: ChildState, msg: Message): ChildState {
    match msg
    case Delete(a, b) =>
      st.(isDone := st.isDone[a := true][b := true], userQueue := Erase(st.userQueue, a, b))
    case ToMatch(fd, profile) =>
      ChildState(st.userQueue + [Entry(fd, profile)], st.matchQueue + [Request(fd, profile)], st.isDone[fd := false])
    case PutInQueue(fd, profile) =>
      st.(userQueue := st.userQueue + [Entry(fd, profile)], isDone := st.isDone[fd := false])
  }

  // ---------------------------------------------------------------- server

  type Turn = x: int | 0 <= x < CHILD_NUM

  datatype ServerState = ServerState(isDone: Flags, pair: Partners, matched: Turn, current: Turn)

  function ServerInit(): ServerState {
    ServerState(AllDone(), NoPartners(), 0, 0)
  }

  function NextTurn(t: Turn): Turn {
    (t + 1) % CHILD_NUM
  }

  // try_match: the request goes out as ToMatch to the child whose turn it is.
  function ServerTryMatch(st: ServerState, fd: ClientFd): ServerState {
    st.(isDone := st.isDone[fd := false], current := NextTurn(st.current))
  }

  function Dispatch(current: Turn, child: Turn, fd: ClientFd, profile: Profile): Message {
    if child == current then ToMatch(fd, profile) else PutInQueue(fd, profile)
  }

  // quit, and a closed or reset connection, change the tables alike.
  function ServerLeave(st: ServerState, fd: ClientFd): ServerState {
    var partner := st.pair[fd];
    var st' := st.(isDone := st.isDone[fd := true][partner := true]);
    if partner == 0 then st' else st'.(pair := st.pair[partner := 0][fd := 0])
  }

  // The first record of a group that names two users who are both still waiting.
  function FirstWaiting(records: seq<Token>, isDone: Flags): (r: Option<(Fd, Fd)>)
    requires forall t <- records :: t.Record?
  {
    if |records| == 0 then None
    else if records[0].kind == SendMatch && !isDone[records[0].fd] && !isDone[records[0].matchedFd] then
      Some((records[0].fd, records[0].matchedFd))
    else FirstWaiting(records[1..], isDone)
  }

  function ServerPair(st: ServerState, choice: Option<(Fd, Fd)>): ServerState {
    var st' := st.(matched := NextTurn(st.matched));
    match choice
    case None => st'
    case Some((x, y)) =>
      st'.(isDone := st.isDone[x := true][y := true], pair := st.pair[x := y][y := x])
  }

  // A pipe holds a whole group when its count is followed by that many records.
  predicate HasGroup(pipe: seq<Token>) {
    && |pipe| > 0 && pipe[0].Count?
    && pipe[0].n < |pipe|
    && forall i :: 1 <= i <= pipe[0].n ==> pipe[i].Record?
  }

  function GroupRecords(pipe: seq<Token>): (r: seq<Token>)
    requires HasGroup(pipe)
    ensures forall t <- r :: t.Record?
  {
    pipe[1..1 + pipe[0].n]
  }

  function AfterGroup(pipe: seq<Token>): seq<Token>
    requires HasGroup(pipe)
  {
    pipe[1 + pipe[0].n..]
  }
}
