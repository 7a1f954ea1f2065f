/** The message-queue back end: ipc/msgqueue.c under the loops of server/server.c and
    client/client.c. One server process and one database connection serve any number of
    clients over two queues; every queue operation and every execution is one step. */
module MsgQueue {
  import opened Types
  import opened Tables
  import opened Database
  import opened Durability
  import opened Server
  import opened Projections
  import opened Runs

  /** A System V message: its type is the client's pid in both directions. */
  datatype Msg = Msg(mtype: int, body: Datagram)

  /** An executed request, in the order of execution. */
  datatype Entry = Entry(pid: int, request: Request, reply: Reply)

  datatype ServerPc = Accepting | Serving | Executing(pid: int, request: Request) | Sending(pid: int, reply: Reply)
                    | Stopped(last: int, request: Request)
  datatype ClientPc = Idle | Waiting | Gone

  /** `sentAt` is the length of the log when the last request was sent. */
  datatype ClientState = ClientState(pc: ClientPc, sent: seq<Request>, got: seq<Reply>, sentAt: nat)

  /** `log` records what the server has executed and answered. */
  datatype State = State(
    toServer: seq<Msg>, toClients: seq<Msg>, server: ServerPc, db: Conn,
    clients: map<int, ClientState>, log: seq<Entry>)

  datatype Step =
    | Connects(pid: int)
    | Sends(pid: int, request: Request)
    | Receives(pid: int)
    | ServerMoves

  function Initial(t: Tables): State {
    State([], [], Accepting, Opened(t), map[], [])
  }

  /** msgrcv with a positive type: the first message of that type, if there is one. */
  function FirstFor(q: seq<Msg>, pid: int): (i: nat)
    ensures i <= |q|
    ensures i < |q| ==> q[i].mtype == pid
    ensures forall j :: 0 <= j < i ==> q[j].mtype != pid
  {
    if q == [] then 0 else if q[0].mtype == pid then 0 else 1 + FirstFor(q[1..], pid)
  }

  function ServerNext(s: State): Option<State> {
    match s.server
    case Accepting =>
      if s.toServer == [] then None
      else
        var m := s.toServer[0];
        Some(s.(toServer := s.toServer[1..],
                server := if m.body == Ask(Connect) then Serving else Stopped(m.mtype, RequestIn(m))))
    case Serving =>
      if s.toServer == [] then None
      else Some(s.(toServer := s.toServer[1..], server := Executing(s.toServer[0].mtype, RequestIn(s.toServer[0]))))
    case Executing(pid, r) =>
      if r.Exit? then Some(s.(server := Stopped(pid, r)))
      else
        var reply := Apply(s.db.working, r).1;
        if reply == None then Some(s.(db := Execute(s.db, r), server := Serving))
        else Some(s.(db := Execute(s.db, r), server := Sending(pid, reply.value),
                     log := s.log + [Entry(pid, r, reply.value)]))
    case Sending(pid, a) =>
      Some(s.(toClients := s.toClients + [Msg(pid, Answer(a))], server := Serving))
    case Stopped(_, _) => None
  }

  /** The server's queue carries requests only. */
  function RequestIn(m: Msg): Request {
    if m.body.Ask? then m.body.request else Exit
  }

  /** A server that stops removes both queues: nothing can be sent or received any more. */
  function Next(s: State, step: Step): Option<State> {
    if s.server.Stopped? then None else
    match step
    case Connects(pid) =>
      if pid in s.clients || pid <= 0 then None
      else Some(s.(clients := s.clients[pid := ClientState(Idle, [], [], 0)],
                   toServer := s.toServer + [Msg(pid, Ask(Connect))]))
    case Sends(pid, r) =>
      if pid !in s.clients || s.clients[pid].pc != Idle || r.Connect? || !Fits(MessageQueue, Ask(r)) then None
      else
        var c := s.clients[pid];
        Some(s.(clients := s.clients[pid := ClientState(if r.Exit? then Gone else Waiting, c.sent + [r], c.got, |s.log|)],
                toServer := s.toServer + [Msg(pid, Ask(r))]))
    case Receives(pid) =>
      if pid !in s.clients || s.clients[pid].pc != Waiting then None
      else
        var i := FirstFor(s.toClients, pid);
        // a message above the receive limit is refused and stays in the queue
        if i == |s.toClients| || !s.toClients[i].body.Answer? || !Fits(MessageQueue, s.toClients[i].body) then None
        else
          var c := s.clients[pid];
          Some(s.(clients := s.clients[pid := c.(pc := Idle, got := c.got + [s.toClients[i].body.reply])],
                  toClients := Without(s.toClients, i)))
    case ServerMoves => ServerNext(s)
  }

  ghost predicate Reaches(s0: State, steps: seq<Step>, s: State) {
    IsRun(Next, s0, steps, s)
  }

  function Moves(n: nat): seq<Step> {
    seq(n, i => ServerMoves)
  }

  lemma MoveFirst(a: State, b: State, n: nat, c: State)
    requires Next(a, ServerMoves) == Some(b) && Reaches(b, Moves(n), c)
    ensures Reaches(a, Moves(n + 1), c)
  {
    assert Moves(n + 1)[1..] == Moves(n);
  }

  // ---- what belongs to one client ----

  function RequestOf(pid: int): Msg -> Option<Request> {
    (m: Msg) => if m.mtype == pid && m.body.Ask? && !m.body.request.Connect? then Some(m.body.request) else None
  }

  function ReplyTo(pid: int): Msg -> Option<Reply> {
    (m: Msg) => if m.mtype == pid && m.body.Answer? then Some(m.body.reply) else None
  }

  function EntryOf(pid: int): Entry -> Option<Entry> {
    (e: Entry) => if e.pid == pid then Some(e) else None
  }

  function Requests(log: seq<Entry>): seq<Request> {
    seq(|log|, i requires 0 <= i < |log| => log[i].request)
  }

  function Replies(log: seq<Entry>): seq<Reply> {
    seq(|log|, i requires 0 <= i < |log| => log[i].reply)
  }

  /** The request of `pid` that the server holds, and the reply that it holds. */
  function HeldRequest(s: State, pid: int): seq<Request> {
    match s.server
    case Executing(p, r) => if p == pid && !r.Connect? then [r] else []
    case Stopped(p, r) => if p == pid && !r.Connect? then [r] else []
    case _ => []
  }

  function HeldReply(s: State, pid: int): seq<Reply> {
    match s.server
    case Sending(p, a) => if p == pid then [a] else []
    case _ => []
  }

  // ---- the invariant ----

  /** Nothing is lost, duplicated, reordered or misrouted: a client's requests are those logged
      for it, then the one the server holds, then those queued; the replies logged for it are
      those it has received, then those queued for it, then the one the server holds. */
  ghost predicate Conserved(s: State, pid: int)
    requires pid in s.clients
  {
    var c := s.clients[pid];
    && c.sent == Requests(Pick(s.log, EntryOf(pid))) + HeldRequest(s, pid) + Pick(s.toServer, RequestOf(pid))
    && Replies(Pick(s.log, EntryOf(pid))) == c.got + Pick(s.toClients, ReplyTo(pid)) + HeldReply(s, pid)
  }

  /** A client has at most one request outstanding; an exit is never answered. */
  ghost predicate Lockstep(s: State, pid: int)
    requires pid in s.clients
  {
    var c := s.clients[pid];
    && (c.pc == Idle ==> |c.sent| == |c.got|)
    && (c.pc != Idle ==> |c.sent| == |c.got| + 1)
    && (c.pc == Waiting ==> !c.sent[|c.sent| - 1].Exit?)
    && (c.pc == Gone ==> c.sent[|c.sent| - 1].Exit?)
  }

  /** The outstanding request of a waiting client was not executed before it was sent. */
  ghost predicate Timely(s: State, pid: int)
    requires pid in s.clients
  {
    var c := s.clients[pid];
    c.pc == Waiting ==> c.sentAt <= |s.log| && |Pick(s.log[..c.sentAt], EntryOf(pid))| == |c.got|
  }

  ghost predicate LogIsSequential(t: Tables, db: Conn, log: seq<Entry>) {
    && db == Run(Opened(t), Requests(log))
    && (forall i :: 0 <= i < |log| ==> Some(log[i].reply) == ReplyAt(t, Requests(log), i))
  }

  /** The server's queue carries requests, the other one answers, all of known clients; the
      first message the server accepts is a connection. */
  ghost predicate WellRouted(s: State) {
    && (forall i :: 0 <= i < |s.toServer| ==> s.toServer[i].body.Ask? && s.toServer[i].mtype in s.clients)
    && (forall i :: 0 <= i < |s.toClients| ==> s.toClients[i].body.Answer? && s.toClients[i].mtype in s.clients)
    && (forall i :: 0 <= i < |s.log| ==> s.log[i].pid in s.clients)
    && (s.server.Executing? || s.server.Sending? ==> s.server.pid in s.clients)
    && (s.server.Stopped? ==> s.server.last in s.clients && s.server.request.Exit?)
    && (s.server.Accepting? && s.clients != map[] ==> s.toServer != [] && s.toServer[0].body == Ask(Connect))
  }

  ghost predicate ClientInv(s: State, pid: int)
    requires pid in s.clients
  {
    Conserved(s, pid) && Lockstep(s, pid) && Timely(s, pid)
  }

  ghost predicate ClientsInv(s: State) {
    forall pid :: pid in s.clients ==> ClientInv(s, pid)
  }

  ghost predicate Inv(t: Tables, s: State) {
    && LogIsSequential(t, s.db, s.log) && WellRouted(s)
    && ClientsInv(s)
  }

  // ---- one step, seen by one client ----

  lemma NewcomerInv(s: State, u: State, q: int)
    requires WellRouted(s) && Next(s, Connects(q)) == Some(u)
    ensures ClientInv(u, q)
  {
    PickNothing(s.log, EntryOf(q));
    PickNothing(s.toServer, RequestOf(q));
    PickNothing(s.toClients, ReplyTo(q));
    PickSnoc(s.toServer, Msg(q, Ask(Connect)), RequestOf(q));
  }

  lemma QueuedForServer(s: State, u: State, m: Msg, p: int)
    requires p in s.clients && p in u.clients && ClientInv(s, p) && u.clients[p] == s.clients[p]
    requires u.toServer == s.toServer + [m] && RequestOf(p)(m) == None
    requires u.toClients == s.toClients && u.log == s.log && u.server == s.server
    ensures ClientInv(u, p)
  {
    PickSnoc(s.toServer, m, RequestOf(p));
  }

  lemma SenderInv(s: State, u: State, q: int, r: Request)
    requires q in s.clients && ClientInv(s, q) && Next(s, Sends(q, r)) == Some(u)
    ensures ClientInv(u, q)
  {
    PickSnoc(s.toServer, Msg(q, Ask(r)), RequestOf(q));
    assert s.log[..|s.log|] == s.log;
    assert |Replies(Pick(s.log, EntryOf(q)))| == |Pick(s.log, EntryOf(q))|;
  }

  lemma ReceiverInv(s: State, u: State, q: int, p: int)
    requires p in s.clients && ClientInv(s, p) && Next(s, Receives(q)) == Some(u)
    ensures ClientInv(u, p)
  {
    var i := FirstFor(s.toClients, q);
    PickWithout(s.toClients, i, ReplyTo(p));
    assert u.toClients == Without(s.toClients, i) && u.log == s.log && u.server == s.server && u.toServer == s.toServer;
    assert Lockstep(u, p) && Timely(u, p);
    ReceivedIsConserved(s, u, p);
  }

  lemma ReceivedIsConserved(s: State, u: State, p: int)
    requires p in s.clients && p in u.clients && Conserved(s, p)
    requires u.log == s.log && u.server == s.server && u.toServer == s.toServer && u.clients[p].sent == s.clients[p].sent
    requires u.clients[p].got + Pick(u.toClients, ReplyTo(p)) == s.clients[p].got + Pick(s.toClients, ReplyTo(p))
    ensures Conserved(u, p)
  {}

  /** The server has taken the head of its queue and holds it. */
  lemma TakenInv(s: State, u: State, p: int)
    requires p in s.clients && ClientInv(s, p) && s.toServer != [] && s.toServer[0].body.Ask?
    requires s.server.Accepting? || s.server.Serving?
    requires ServerNext(s) == Some(u)
    ensures ClientInv(u, p)
  {
    HeadIsHeld(s, u, p);
    HeldInv(s, u, p);
  }

  lemma HeadIsHeld(s: State, u: State, p: int)
    requires s.toServer != [] && s.toServer[0].body.Ask? && (s.server.Accepting? || s.server.Serving?)
    requires ServerNext(s) == Some(u)
    ensures u.clients == s.clients && u.log == s.log && u.toClients == s.toClients
    ensures HeldReply(u, p) == HeldReply(s, p) == [] && HeldRequest(s, p) == []
    ensures Pick(s.toServer, RequestOf(p)) == HeldRequest(u, p) + Pick(u.toServer, RequestOf(p))
  {}

  lemma HeldInv(s: State, u: State, p: int)
    requires p in s.clients && ClientInv(s, p)
    requires u.clients == s.clients && u.log == s.log && u.toClients == s.toClients
    requires HeldReply(u, p) == HeldReply(s, p)
    requires HeldRequest(s, p) + Pick(s.toServer, RequestOf(p)) == HeldRequest(u, p) + Pick(u.toServer, RequestOf(p))
    ensures ClientInv(u, p)
  {
    assert Lockstep(u, p) && Timely(u, p);
    assert Conserved(u, p) by { HeldIsConserved(s, u, p); }
  }

  lemma HeldIsConserved(s: State, u: State, p: int)
    requires p in s.clients && Conserved(s, p)
    requires u.clients == s.clients && u.log == s.log && u.toClients == s.toClients
    requires HeldReply(u, p) == HeldReply(s, p)
    requires HeldRequest(s, p) + Pick(s.toServer, RequestOf(p)) == HeldRequest(u, p) + Pick(u.toServer, RequestOf(p))
    ensures Conserved(u, p)
  {
    Regroup(Requests(Pick(s.log, EntryOf(p))), HeldRequest(s, p), Pick(s.toServer, RequestOf(p)),
            HeldRequest(u, p), Pick(u.toServer, RequestOf(p)));
  }

  lemma Regroup<A>(a: seq<A>, b: seq<A>, c: seq<A>, d: seq<A>, e: seq<A>)
    requires b + c == d + e
    ensures a + b + c == a + d + e
  {
    assert a + b + c == a + (b + c);
    assert a + d + e == a + (d + e);
  }

  lemma AnsweredInv(s: State, u: State, p: int)
    requires p in s.clients && ClientInv(s, p) && s.server.Sending? && ServerNext(s) == Some(u)
    ensures ClientInv(u, p)
  {
    PickSnoc(s.toClients, Msg(s.server.pid, Answer(s.server.reply)), ReplyTo(p));
  }

  lemma LoggedInv(s: State, u: State, e: Entry, p: int)
    requires p in s.clients && p in u.clients && ClientInv(s, p) && u.clients[p] == s.clients[p]
    requires s.server == Executing(e.pid, e.request) && !e.request.Connect? && u.server == Sending(e.pid, e.reply)
    requires u.log == s.log + [e] && u.toServer == s.toServer && u.toClients == s.toClients
    ensures ClientInv(u, p)
  {
    PickSnoc(s.log, e, EntryOf(p));
    var before := Pick(s.log, EntryOf(p));
    assert Requests(before + [e]) == Requests(before) + [e.request];
    assert Replies(before + [e]) == Replies(before) + [e.reply];
    var n := s.clients[p].sentAt;
    assert n <= |s.log| ==> u.log[..n] == s.log[..n];
  }

  lemma LogExtends(t: Tables, db: Conn, log: seq<Entry>, e: Entry)
    requires LogIsSequential(t, db, log) && Apply(db.working, e.request).1 == Some(e.reply)
    ensures LogIsSequential(t, Execute(db, e.request), log + [e])
  {
    var rs := Requests(log);
    var longer := log + [e];
    assert Requests(longer) == rs + [e.request];
    assert Execute(db, e.request) == Run(Opened(t), rs + [e.request]) by { ExecuteNext(t, rs, e.request); }
    assert Some(e.reply) == ReplyAt(t, rs + [e.request], |log|) by { ExecuteNext(t, rs, e.request); }
    forall i | 0 <= i < |longer| ensures Some(longer[i].reply) == ReplyAt(t, Requests(longer), i) {
      if i < |log| { ReplyAtPrefix(t, rs, e.request, i); }
    }
  }

  // ---- one step, seen by everybody ----

  lemma ClientStepKeepsClients(s: State, step: Step)
    requires WellRouted(s) && ClientsInv(s) && Next(s, step).Some? && !step.ServerMoves?
    ensures ClientsInv(Next(s, step).value)
  {
    var u := Next(s, step).value;
    forall p | p in u.clients ensures ClientInv(u, p) {
      match step
      case Connects(q) => if p == q { NewcomerInv(s, u, q); } else { QueuedForServer(s, u, Msg(q, Ask(Connect)), p); }
      case Sends(q, r) => if p == q { SenderInv(s, u, q, r); } else { QueuedForServer(s, u, Msg(q, Ask(r)), p); }
      case Receives(q) => ReceiverInv(s, u, q, p);
    }
  }

  lemma UnloggedInv(s: State, u: State, p: int)
    requires p in s.clients && ClientInv(s, p) && s.server.Executing? && ServerNext(s) == Some(u) && !u.server.Sending?
    ensures ClientInv(u, p)
  {
    assert u.clients == s.clients && u.log == s.log && u.toClients == s.toClients && u.toServer == s.toServer;
    assert HeldRequest(u, p) == HeldRequest(s, p);
    HeldInv(s, u, p);
  }

  lemma ServerStepInv(s: State, u: State, p: int)
    requires WellRouted(s) && p in s.clients && ClientInv(s, p) && ServerNext(s) == Some(u)
    ensures ClientInv(u, p)
  {
    if s.server.Sending? {
      AnsweredInv(s, u, p);
    } else if !s.server.Executing? {
      TakenInv(s, u, p);
    } else if u.server.Sending? {
      LoggedInv(s, u, Entry(s.server.pid, s.server.request, u.server.reply), p);
    } else {
      UnloggedInv(s, u, p);
    }
  }

  lemma ServerStepKeepsClients(s: State)
    requires WellRouted(s) && ClientsInv(s) && ServerNext(s).Some?
    ensures ClientsInv(ServerNext(s).value)
  {
    var u := ServerNext(s).value;
    assert u.clients == s.clients;
    forall p | p in u.clients ensures ClientInv(u, p) {
      ServerStepInv(s, u, p);
    }
  }

  lemma StepKeepsRouting(s: State, step: Step)
    requires WellRouted(s) && Next(s, step).Some?
    ensures WellRouted(Next(s, step).value)
  {}

  lemma StepKeepsLog(t: Tables, s: State, step: Step)
    requires LogIsSequential(t, s.db, s.log) && Next(s, step).Some?
    ensures LogIsSequential(t, Next(s, step).value.db, Next(s, step).value.log)
  {
    var u := Next(s, step).value;
    if step.ServerMoves? && s.server.Executing? {
      if u.server.Sending? {
        LogExtends(t, s.db, s.log, Entry(s.server.pid, s.server.request, u.server.reply));
      } else {
        assert u.db == s.db && u.log == s.log;
      }
    } else {
      assert u.db == s.db && u.log == s.log;
    }
  }

  lemma StepKeepsInv(t: Tables, s: State, step: Step)
    requires Inv(t, s) && Next(s, step).Some?
    ensures Inv(t, Next(s, step).value)
  {
    StepKeepsLog(t, s, step);
    StepKeepsRouting(s, step);
    if step.ServerMoves? { ServerStepKeepsClients(s); } else { ClientStepKeepsClients(s, step); }
  }

  lemma {:induction false} RunKeepsInv(t: Tables, s0: State, steps: seq<Step>, s: State)
    requires Inv(t, s0) && Reaches(s0, steps, s)
    ensures Inv(t, s)
    decreases |steps|
  {
    if steps != [] {
      StepKeepsInv(t, s0, steps[0]);
      RunKeepsInv(t, Next(s0, steps[0]).value, steps[1..], s);
    }
  }

  lemma InitialInv(t: Tables)
    ensures Inv(t, Initial(t))
  {}

  // ---- results about every run ----

  /** `at` places each answer of client `pid` in the log: the k-th answer it received is the
      reply logged for its k-th request. */
  ghost predicate Explains(s: State, pid: int, at: seq<nat>)
    requires pid in s.clients
  {
    var c := s.clients[pid];
    && |at| == |c.got| && |c.got| <= |c.sent|
    && (forall k :: 0 <= k < |at| ==> at[k] < |s.log| && s.log[at[k]] == Entry(pid, c.sent[k], c.got[k]))
    && (forall k, l :: 0 <= k < l < |at| ==> at[k] < at[l])
  }

  lemma InvExplains(s: State, pid: int)
    requires pid in s.clients && ClientInv(s, pid)
    ensures |s.clients[pid].got| <= |Places(s.log, EntryOf(pid))|
    ensures Explains(s, pid, Places(s.log, EntryOf(pid))[..|s.clients[pid].got|])
  {
    PlacesArePicks(s.log, EntryOf(pid));
    var mine := Pick(s.log, EntryOf(pid));
    var c := s.clients[pid];
    assert |Replies(mine)| == |mine| == |Requests(mine)|;
    forall k | 0 <= k < |c.got|
      ensures s.log[Places(s.log, EntryOf(pid))[k]] == Entry(pid, c.sent[k], c.got[k])
    {
      assert Replies(mine)[k] == mine[k].reply;
      assert Requests(mine)[k] == mine[k].request;
    }
  }

  /** Main result. In every run, with any clients and any interleaving, the log is a run of the
      sequential specification, every client's answers are in it as the replies to its own
      requests, in its own order, and each request it has sent is answered before the next. */
  lemma Linearizable(t: Tables, steps: seq<Step>, s: State)
    requires Reaches(Initial(t), steps, s)
    ensures forall i :: 0 <= i < |s.log| ==> Some(s.log[i].reply) == ReplyAt(t, Requests(s.log), i)
    ensures s.db == Run(Opened(t), Requests(s.log))
    ensures forall pid :: pid in s.clients ==> exists at :: Explains(s, pid, at)
    ensures forall pid :: pid in s.clients ==> |s.clients[pid].sent| <= |s.clients[pid].got| + 1
    ensures s.server.Stopped? ==> s.server.request.Exit?
  {
    InitialInv(t);
    RunKeepsInv(t, Initial(t), steps, s);
    forall pid | pid in s.clients ensures exists at :: Explains(s, pid, at) {
      InvExplains(s, pid);
    }
  }

  /** Main result, real time. An answer that client `p` receives was logged after `p` sent the
      request and before it receives the answer; so an operation that ended before another
      began comes before it in the log. */
  lemma AnswerTakesEffectInTime(t: Tables, steps: seq<Step>, s: State, p: int) returns (i: nat)
    requires Reaches(Initial(t), steps, s) && Next(s, Receives(p)).Some?
    ensures var c := s.clients[p];
            var u := Next(s, Receives(p)).value;
            && c.sent != [] && c.sentAt <= i < |s.log|
            && u.clients[p].got == c.got + [s.log[i].reply]
            && s.log[i] == Entry(p, c.sent[|c.sent| - 1], s.log[i].reply)
            && Some(s.log[i].reply) == ReplyAt(t, Requests(s.log), i)
  {
    var u := Next(s, Receives(p)).value;
    assert ClientInv(s, p) && ClientInv(u, p) && LogIsSequential(t, s.db, s.log) by {
      InitialInv(t);
      RunKeepsInv(t, Initial(t), steps, s);
      StepKeepsInv(t, s, Receives(p));
    }
    i := AnswerIsLogged(s, u, p);
  }

  lemma AnswerIsLogged(s: State, u: State, p: int) returns (i: nat)
    requires p in s.clients && ClientInv(s, p) && Next(s, Receives(p)) == Some(u) && ClientInv(u, p)
    ensures var c := s.clients[p];
            && c.sent != [] && c.sentAt <= i < |s.log|
            && u.clients[p].got == c.got + [s.log[i].reply]
            && s.log[i] == Entry(p, c.sent[|c.sent| - 1], s.log[i].reply)
  {
    var k := |s.clients[p].got|;
    InvExplains(u, p);
    assert u.log == s.log && u.clients[p].sent == s.clients[p].sent;
    PlaceAfterPrefix(s.log, EntryOf(p), s.clients[p].sentAt, k);
    i := Places(s.log, EntryOf(p))[k];
  }
}
