/** The matchmaker as a whole: one server and CHILD_NUM children joined by FIFO pipes,
    one atomic action per loop body, and the invariant that ties every reachable state
    to the history of broadcasts. */
module MatchSystem {
  import opened Matchmaking
  import opened Options

  datatype System = System(server: ServerState, children: seq<ChildState>,
                           inbox: seq<seq<Message>>, outbox: seq<seq<Token>>)

  datatype Action =
    | TryMatch(fd: ClientFd, profile: Profile)
    | Leave(client: ClientFd)
    | Collect
    | ChildMatch(child: Turn)
    | ChildInbox(who: Turn)

  ghost predicate Shaped(s: System) {
    |s.children| == |s.inbox| == |s.outbox| == CHILD_NUM
  }

  ghost function Init(): System {
    System(ServerInit(), seq(CHILD_NUM, _ => ChildInit()), seq(CHILD_NUM, _ => []), seq(CHILD_NUM, _ => []))
  }

  ghost predicate Enabled(s: System, a: Action)
    requires Shaped(s)
  {
    match a
    case TryMatch(_, _) => true
    case Leave(_) => true
    case Collect => HasGroup(s.outbox[s.server.matched])
    case ChildMatch(c) => |s.children[c].matchQueue| > 0
    case ChildInbox(c) => |s.inbox[c]| > 0
  }

  // What the server's one blocking read of a group makes it choose.
  ghost function Choice(s: System): Option<(Fd, Fd)>
    requires Shaped(s) && Enabled(s, Collect)
  {
    FirstWaiting(GroupRecords(s.outbox[s.server.matched]), s.server.isDone)
  }

  ghost function BroadcastRequest(inbox: seq<seq<Message>>, current: Turn, req: Request): (r: seq<seq<Message>>)
    requires |inbox| == CHILD_NUM
    ensures |r| == CHILD_NUM
  {
    seq(CHILD_NUM, c requires 0 <= c < CHILD_NUM => inbox[c] + [Dispatch(current, c, req.fd, req.profile)])
  }

  ghost function BroadcastDelete(inbox: seq<seq<Message>>, a: Fd, b: Fd): (r: seq<seq<Message>>)
    requires |inbox| == CHILD_NUM
    ensures |r| == CHILD_NUM
  {
    seq(CHILD_NUM, c requires 0 <= c < CHILD_NUM => inbox[c] + [Delete(a, b)])
  }

  // Pairing two users tells every child to forget both.
  ghost function BroadcastPair(inbox: seq<seq<Message>>, choice: Option<(Fd, Fd)>): (r: seq<seq<Message>>)
    requires |inbox| == CHILD_NUM
    ensures |r| == CHILD_NUM
  {
    match choice
    case None => inbox
    case Some(p) => BroadcastDelete(inbox, p.0, p.1)
  }

  ghost function Step(s: System, a: Action): (s': System)
    requires Shaped(s) && Enabled(s, a)
    ensures Shaped(s')
  {
    match a
    case TryMatch(fd, profile) =>
      s.(server := ServerTryMatch(s.server, fd),
         inbox := BroadcastRequest(s.inbox, s.server.current, Request(fd, profile)))
    case Leave(fd) =>
      s.(server := ServerLeave(s.server, fd),
         inbox := BroadcastDelete(s.inbox, fd, s.server.pair[fd]))
    case Collect =>
      s.(server := ServerPair(s.server, Choice(s)),
         outbox := s.outbox[s.server.matched := AfterGroup(s.outbox[s.server.matched])],
         inbox := BroadcastPair(s.inbox, Choice(s)))
    case ChildMatch(c) =>
      s.(children := s.children[c := ChildPop(s.children[c])],
         outbox := s.outbox[c := s.outbox[c] + ChildAnswer(s.children[c])])
    case ChildInbox(c) =>
      s.(children := s.children[c := ChildReceive(s.children[c], s.inbox[c][0])],
         inbox := s.inbox[c := s.inbox[c][1..]])
  }

  // ---------------------------------------------------------------- history

  // Every broadcast in order; for each child how much of it the child has read (seen),
  // the answers it has written so far, and how much it had read for each (views); and
  // how many answers the server has collected.
  datatype Event = New(req: Request) | Del(a: Fd, b: Fd)
  datatype History = History(log: seq<Event>, seen: seq<nat>, views: seq<seq<nat>>,
                             answers: seq<seq<seq<Token>>>, collected: nat)

  ghost function NoHistory(): History {
    History([], seq(CHILD_NUM, _ => 0), seq(CHILD_NUM, _ => []), seq(CHILD_NUM, _ => []), 0)
  }

  ghost predicate HistoryShaped(h: History) {
    |h.seen| == |h.views| == |h.answers| == CHILD_NUM
  }

  ghost function PairEvents(choice: Option<(Fd, Fd)>): seq<Event> {
    match choice
    case None => []
    case Some(p) => [Del(p.0, p.1)]
  }

  ghost function Note(s: System, h: History, a: Action): (h': History)
    requires Shaped(s) && Enabled(s, a) && HistoryShaped(h)
    ensures HistoryShaped(h')
  {
    match a
    case TryMatch(fd, profile) => h.(log := h.log + [New(Request(fd, profile))])
    case Leave(fd) => h.(log := h.log + [Del(fd, s.server.pair[fd])])
    case Collect =>
      h.(collected := h.collected + 1,
         log := h.log + PairEvents(Choice(s)))
    case ChildMatch(c) =>
      h.(views := h.views[c := h.views[c] + [h.seen[c]]],
         answers := h.answers[c := h.answers[c] + [ChildAnswer(s.children[c])]])
    case ChildInbox(c) => h.(seen := h.seen[c := h.seen[c] + 1])
  }

  // ---------------------------------------------------------------- runs

  // The system together with its history. A guard that is false means the process
  // polls and finds nothing, so the action changes nothing and every sequence of
  // actions is a run.
  datatype World = World(sys: System, hist: History)

  ghost function Start(): World {
    World(Init(), NoHistory())
  }

  ghost predicate WorldShaped(w: World) {
    Shaped(w.sys) && HistoryShaped(w.hist)
  }

  ghost function Advance(w: World, a: Action): (w': World)
    requires WorldShaped(w)
    ensures WorldShaped(w')
  {
    if Enabled(w.sys, a) then World(Step(w.sys, a), Note(w.sys, w.hist, a)) else w
  }

  ghost function Run(acts: seq<Action>): (w: World)
    ensures WorldShaped(w)
  {
    if acts == [] then Start() else Advance(Run(acts[..|acts| - 1]), acts[|acts| - 1])
  }

  // ---------------------------------------------------------------- what a log determines

  ghost function Requests(log: seq<Event>): seq<Request> {
    if log == [] then []
    else
      var rest := Requests(log[..|log| - 1]);
      match log[|log| - 1]
      case New(req) => rest + [req]
      case Del(_, _) => rest
  }

  // The requests dealt to child c.
  ghost function Mine(log: seq<Event>, c: Turn): seq<Request> {
    if log == [] then []
    else
      var front := log[..|log| - 1];
      match log[|log| - 1]
      case New(req) => if |Requests(front)| % CHILD_NUM == c then Mine(front, c) + [req] else Mine(front, c)
      case Del(_, _) => Mine(front, c)
  }

  ghost function QueueOf(log: seq<Event>): seq<Entry> {
    if log == [] then []
    else
      var front := log[..|log| - 1];
      match log[|log| - 1]
      case New(req) => QueueOf(front) + [Entry(req.fd, req.profile)]
      case Del(a, b) => Erase(QueueOf(front), a, b)
  }

  ghost function DoneOf(log: seq<Event>): Flags {
    if log == [] then AllDone()
    else
      var front := log[..|log| - 1];
      match log[|log| - 1]
      case New(req) => DoneOf(front)[req.fd := false]
      case Del(a, b) => DoneOf(front)[a := true][b := true]
  }

  ghost function MessageFor(front: seq<Event>, e: Event, c: Turn): Message {
    match e
    case New(req) => Dispatch(|Requests(front)| % CHILD_NUM, c, req.fd, req.profile)
    case Del(a, b) => Delete(a, b)
  }

  ghost function Delivered(log: seq<Event>, c: Turn): (r: seq<Message>)
    ensures |r| == |log|
  {
    if log == [] then []
    else Delivered(log[..|log| - 1], c) + [MessageFor(log[..|log| - 1], log[|log| - 1], c)]
  }

  // The answer to a request worked out from a given prefix of the broadcasts.
  ghost function AnswerFrom(view: seq<Event>, req: Request): seq<Token> {
    Reply(req.fd, Candidates(QueueOf(view), DoneOf(view), req))
  }

  ghost function Joined(groups: seq<seq<Token>>): seq<Token> {
    if groups == [] then [] else groups[0] + Joined(groups[1..])
  }

  // How many of the first k requests went to child c.
  ghost function Share(k: nat, c: Turn): nat {
    (k + CHILD_NUM - 1 - c) / CHILD_NUM
  }

  // The child's own tables hold exactly what its part of the log says.
  ghost predicate TablesAgree(st: ChildState, view: seq<Event>, answered: nat, c: Turn) {
    && answered <= |Mine(view, c)|
    && st.userQueue == QueueOf(view)
    && st.isDone == DoneOf(view)
    && st.matchQueue == Mine(view, c)[answered..]
  }

  // The m-th answer is the answer to the child's m-th request, worked out from a prefix
  // of the broadcasts that already held the request.
  ghost predicate Answered(log: seq<Event>, view: nat, answer: seq<Token>, m: nat, c: Turn) {
    && view <= |log|
    && m < |Mine(log[..view], c)|
    && answer == AnswerFrom(log[..view], Mine(log[..view], c)[m])
  }

  ghost predicate AnswersFit(log: seq<Event>, views: seq<nat>, answers: seq<seq<Token>>, c: Turn) {
    && |views| == |answers|
    && forall m :: 0 <= m < |views| ==> Answered(log, views[m], answers[m], m, c)
  }

  ghost predicate ChildAgrees(s: System, h: History, c: Turn)
    requires Shaped(s) && HistoryShaped(h)
  {
    && h.seen[c] <= |h.log|
    && AnswersFit(h.log, h.views[c], h.answers[c], c)
    && TablesAgree(s.children[c], h.log[..h.seen[c]], |h.answers[c]|, c)
    && s.inbox[c] == Delivered(h.log, c)[h.seen[c]..]
    && Share(h.collected, c) <= |h.answers[c]|
    && s.outbox[c] == Joined(h.answers[c][Share(h.collected, c)..])
  }

  ghost predicate ServerAgrees(st: ServerState, h: History) {
    && st.isDone == DoneOf(h.log)
    && st.current == |Requests(h.log)| % CHILD_NUM
    && st.matched == h.collected % CHILD_NUM
  }

  ghost predicate Agrees(w: World) {
    && WorldShaped(w)
    && ServerAgrees(w.sys.server, w.hist)
    && forall c: Turn :: ChildAgrees(w.sys, w.hist, c)
  }
}
