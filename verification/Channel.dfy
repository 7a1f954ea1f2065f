/** The private shared-memory channel after the handshake: ipc_send and ipc_receive of
    ipc/shmem.c, the serve loop of server/server.c and the command loop of client/client.c.
    One client and its child; each semaphore operation and each copy is one step. */
module Channel {
  import opened Types
  import opened Tables
  import opened Database
  import opened Durability
  import opened Server
  import opened Runs

  datatype ClientPc = Idle | Sending(request: Request) | Raising(request: Request) | Awaiting | Reading | Finished
  datatype ServerPc = Listening | Copying | Deciding(datagram: Datagram) | Replying(reply: Reply) | RaisingReply | Ended

  /** `sent`, `taken` and `got` record what the client handed to ipc_send, what the child read
      from the page and what the client read from it. */
  datatype State = State(
    page: Option<Datagram>, semClient: nat, semServer: nat,
    client: ClientPc, server: ServerPc, db: Conn,
    sent: seq<Request>, taken: seq<Request>, got: seq<Reply>)

  datatype Step = Types(request: Request) | ClientMoves | ServerMoves

  /** Where the handshake leaves them: zeroed page, both semaphores at 0. */
  function Initial(t: Tables): State {
    State(None, 0, 0, Idle, Listening, Opened(t), [], [], [])
  }

  function ClientNext(s: State): Option<State> {
    match s.client
    case Idle => None
    case Sending(r) =>
      // ipc_send refuses what does not fit; main ignores that and goes on to ipc_receive
      if !Fits(SharedMemory, Ask(r)) then Some(s.(client := if r.Exit? then Finished else Awaiting))
      else Some(s.(page := Some(Ask(r)), client := Raising(r)))
    case Raising(r) => Some(s.(semClient := s.semClient + 1, client := if r.Exit? then Finished else Awaiting))
    case Awaiting => if s.semServer == 0 then None else Some(s.(semServer := s.semServer - 1, client := Reading))
    case Reading =>
      if s.page.Some? && s.page.value.Answer? then Some(s.(got := s.got + [s.page.value.reply], client := Idle))
      else Some(s.(client := Idle))
    case Finished => None
  }

  function ServerNext(s: State): Option<State> {
    match s.server
    case Listening => if s.semClient == 0 then None else Some(s.(semClient := s.semClient - 1, server := Copying))
    case Copying => if s.page == None then None else Some(s.(server := Deciding(s.page.value)))
    case Deciding(d) =>
      if d.Answer? then None
      else if d.request.Exit? then Some(s.(taken := s.taken + [d.request], server := Ended))
      else
        var reply := Apply(s.db.working, d.request).1;
        Some(s.(taken := s.taken + [d.request], db := Execute(s.db, d.request),
                server := if reply == None then Listening else Replying(reply.value)))
    case Replying(a) =>
      if !Fits(SharedMemory, Answer(a)) then Some(s.(server := Listening))
      else Some(s.(page := Some(Answer(a)), server := RaisingReply))
    case RaisingReply => Some(s.(semServer := s.semServer + 1, server := Listening))
    case Ended => None
  }

  /** The client's commands yield any request but OP_CONNECT (see Commands.dfy). */
  function Next(s: State, step: Step): Option<State> {
    match step
    case Types(r) => if s.client == Idle && !r.Connect? then Some(s.(client := Sending(r), sent := s.sent + [r])) else None
    case ClientMoves => ClientNext(s)
    case ServerMoves => ServerNext(s)
  }

  ghost predicate Reaches(s0: State, steps: seq<Step>, s: State) {
    IsRun(Next, s0, steps, s)
  }

  /** A client that has its answer can send anything next. */
  lemma AnythingCanBeTyped(s: State, r: Request)
    requires s.client == Idle && !r.Connect?
    ensures Next(s, Types(r)).Some? && Next(s, Types(r)).value.sent == s.sent + [r]
  {}

  // ---- ownership of the page ----

  /** The client may touch the page. */
  ghost predicate ClientOwns(s: State) {
    s.client == Idle || s.client.Sending? || s.client.Raising? || s.client == Reading
  }

  /** The child may touch the page; after OP_EXIT it keeps it. */
  ghost predicate ServerOwns(s: State) {
    s.server != Listening
  }

  ghost function Tokens(s: State): nat {
    s.semClient + s.semServer + (if ClientOwns(s) then 1 else 0) + (if ServerOwns(s) then 1 else 0)
  }

  /** Both sides wait for the other, for good. */
  ghost predicate Lost(s: State) {
    s.semClient == 0 && s.semServer == 0 && s.server == Listening && (s.client == Awaiting || s.client == Finished)
  }

  /** The last request, or the reply to it, was too large for the page. */
  ghost predicate LastTooLarge(t: Tables, s: State) {
    && s.sent != []
    && var n := |s.sent| - 1;
       || !Fits(SharedMemory, Ask(s.sent[n]))
       || (ReplyAt(t, s.sent, n).Some? && !Fits(SharedMemory, Answer(ReplyAt(t, s.sent, n).value)))
  }

  // ---- the invariant: one case per position of the token ----

  /** The first `n` requests are settled: answered in order by the sequential specification. */
  ghost predicate Settled(t: Tables, sent: seq<Request>, got: seq<Reply>, n: nat) {
    && n <= |sent| && |got| == n
    && (forall k :: 0 <= k < n ==> Some(got[k]) == ReplyAt(t, sent, k))
    && (forall k :: 0 <= k < n ==> Fits(SharedMemory, Ask(sent[k])) && Fits(SharedMemory, Answer(got[k])))
  }

  /** The child has taken the first `n` requests, and nothing else, into the database. */
  ghost predicate Taken(t: Tables, s: State, n: nat) {
    n <= |s.sent| && s.taken == s.sent[..n] && s.db == Run(Opened(t), s.taken)
  }

  ghost function Last(s: State): Request
    requires s.sent != []
  {
    s.sent[|s.sent| - 1]
  }

  /** All but the last request are settled, and the last one is not OP_CONNECT. */
  ghost predicate Pending(t: Tables, s: State) {
    s.sent != [] && Settled(t, s.sent, s.got, |s.sent| - 1) && !Last(s).Connect?
  }

  /** The last request is still on its way to the child. */
  ghost predicate Outbound(t: Tables, s: State) {
    Pending(t, s) && Taken(t, s, |s.sent| - 1) && Fits(SharedMemory, Ask(Last(s)))
  }

  /** The child has taken the last request, which fits the page, and `a` is the reply. */
  ghost predicate Inbound(t: Tables, s: State, a: Reply) {
    && Pending(t, s) && Taken(t, s, |s.sent|) && Fits(SharedMemory, Ask(Last(s)))
    && Some(a) == ReplyAt(t, s.sent, |s.sent| - 1)
  }

  ghost predicate ReplyOnPage(t: Tables, s: State) {
    s.page.Some? && s.page.value.Answer? && Fits(SharedMemory, s.page.value) && Inbound(t, s, s.page.value.reply)
  }

  ghost predicate Inv(t: Tables, s: State) {
    && s.semClient + s.semServer <= 1
    && (ClientOwns(s) || s.server != Listening ==> s.semClient == 0 && s.semServer == 0)
    && (ClientOwns(s) ==> s.server == Listening)
    && (s.client == Finished ==> s.sent != [] && Last(s).Exit?)
    && (s.client == Awaiting ==> s.sent != [] && !Last(s).Exit?)
    && if ClientOwns(s) then ClientInv(t, s)
       else if s.server != Listening then ServerInv(t, s)
       else if s.semClient == 1 then Outbound(t, s) && s.page == Some(Ask(Last(s)))
       else if s.semServer == 1 then ReplyOnPage(t, s)
       else Pending(t, s) && LastTooLarge(t, s) && (Taken(t, s, |s.sent|) || Taken(t, s, |s.sent| - 1))
  }

  ghost predicate ClientInv(t: Tables, s: State) {
    match s.client
    case Idle => Settled(t, s.sent, s.got, |s.sent|) && Taken(t, s, |s.sent|)
    case Sending(r) => Pending(t, s) && Taken(t, s, |s.sent| - 1) && r == Last(s)
    case Raising(r) => Outbound(t, s) && r == Last(s) && s.page == Some(Ask(r))
    case Reading => ReplyOnPage(t, s) && !Last(s).Exit?
    case Awaiting => true
    case Finished => true
  }

  ghost predicate ServerInv(t: Tables, s: State) {
    match s.server
    case Listening => true
    case Copying => Outbound(t, s) && s.page == Some(Ask(Last(s)))
    case Deciding(d) => Outbound(t, s) && d == Ask(Last(s))
    case Replying(a) => Inbound(t, s, a) && !Last(s).Exit?
    case RaisingReply => ReplyOnPage(t, s) && !Last(s).Exit?
    case Ended => Pending(t, s) && Taken(t, s, |s.sent|) && Last(s).Exit?
  }

  lemma SettledExtends(t: Tables, sent: seq<Request>, got: seq<Reply>, r: Request)
    requires Settled(t, sent, got, |sent|)
    ensures Settled(t, sent + [r], got, |sent|)
  {
    forall k | 0 <= k < |sent| ensures ReplyAt(t, sent + [r], k) == ReplyAt(t, sent, k) {
      ReplyAtPrefix(t, sent, r, k);
    }
  }

  lemma TypesKeepsInv(t: Tables, s: State, r: Request)
    requires Inv(t, s) && s.client == Idle && !r.Connect?
    ensures Inv(t, Next(s, Types(r)).value)
  {
    SettledExtends(t, s.sent, s.got, r);
    assert s.sent[..|s.sent|] == s.sent;
    assert (s.sent + [r])[..|s.sent|] == s.sent;
  }

  lemma SettledByReply(t: Tables, sent: seq<Request>, got: seq<Reply>, a: Reply)
    requires sent != [] && Settled(t, sent, got, |sent| - 1) && Some(a) == ReplyAt(t, sent, |sent| - 1)
    requires Fits(SharedMemory, Ask(sent[|sent| - 1])) && Fits(SharedMemory, Answer(a))
    ensures Settled(t, sent, got + [a], |sent|)
  {}

  lemma ReadingKeepsInv(t: Tables, s: State)
    requires Inv(t, s) && s.client == Reading
    ensures ClientNext(s).Some? && Inv(t, ClientNext(s).value)
  {
    SettledByReply(t, s.sent, s.got, s.page.value.reply);
  }

  lemma SendingKeepsInv(t: Tables, s: State)
    requires Inv(t, s) && s.client.Sending?
    ensures ClientNext(s).Some? && Inv(t, ClientNext(s).value)
  {}

  lemma ClientKeepsInv(t: Tables, s: State)
    requires Inv(t, s) && ClientNext(s).Some?
    ensures Inv(t, ClientNext(s).value)
  {
    match s.client
    case Reading => ReadingKeepsInv(t, s);
    case Sending(_) => SendingKeepsInv(t, s);
    case _ =>
  }

  /** The database executes the last request as the sequential specification does. */
  lemma TakeLast(t: Tables, s: State)
    requires s.sent != [] && Taken(t, s, |s.sent| - 1)
    ensures s.sent == s.taken + [Last(s)]
    ensures Execute(s.db, Last(s)) == Run(Opened(t), s.sent)
    ensures Apply(s.db.working, Last(s)).1 == ReplyAt(t, s.sent, |s.sent| - 1)
  {
    assert s.sent == s.taken + [Last(s)];
    ExecuteNext(t, s.taken, Last(s));
  }

  lemma DecidingKeepsInv(t: Tables, s: State)
    requires Inv(t, s) && s.server.Deciding?
    ensures ServerNext(s).Some? && Inv(t, ServerNext(s).value)
  {
    TakeLast(t, s);
    assert s.sent[..|s.sent|] == s.sent;
    assert Last(s).Exit? ==> Execute(s.db, Last(s)) == s.db;
  }

  lemma ServerKeepsInv(t: Tables, s: State)
    requires Inv(t, s) && ServerNext(s).Some?
    ensures Inv(t, ServerNext(s).value)
  {
    if s.server.Deciding? {
      DecidingKeepsInv(t, s);
    }
  }

  lemma {:induction false} RunKeepsInv(t: Tables, s0: State, steps: seq<Step>, s: State)
    requires Inv(t, s0) && Reaches(s0, steps, s)
    ensures Inv(t, s)
    decreases |steps|
  {
    if steps != [] {
      match steps[0] {
        case Types(r) => TypesKeepsInv(t, s0, r);
        case ClientMoves => ClientKeepsInv(t, s0);
        case ServerMoves => ServerKeepsInv(t, s0);
      }
      RunKeepsInv(t, Next(s0, steps[0]).value, steps[1..], s);
    }
  }

  /** Main result. In every run there is one token: the page has one owner or one semaphore is
      up, unless the exchange is lost. What the child takes is what the client sent, the k-th
      answer is the sequential specification's reply to the k-th request, and an exchange is
      lost only if its request or its reply exceeds the page. */
  lemma ExchangeIsCorrect(t: Tables, steps: seq<Step>, s: State)
    requires Reaches(Initial(t), steps, s)
    ensures Tokens(s) == if Lost(s) then 0 else 1
    ensures |s.sent| - 1 <= |s.got| <= |s.sent|
    ensures forall k :: 0 <= k < |s.got| ==> Some(s.got[k]) == ReplyAt(t, s.sent, k)
    ensures forall k :: 0 <= k < |s.got| ==> Fits(SharedMemory, Ask(s.sent[k])) && Fits(SharedMemory, Answer(s.got[k]))
    ensures |s.taken| <= |s.sent| && s.taken == s.sent[..|s.taken|] && s.db == Run(Opened(t), s.taken)
    ensures Lost(s) ==> LastTooLarge(t, s)
  {
    RunKeepsInv(t, Initial(t), steps, s);
  }

  /** A lost exchange is never recovered: nobody can move again. */
  lemma LostIsForEver(s: State, step: Step)
    requires Lost(s)
    ensures Next(s, step) == None
  {}

  /** Conversely a run whose last exchange is too large has not completed it, and with nothing
      lost some process can always move until the client has nothing outstanding. */
  lemma TooLargeIsNotAnswered(t: Tables, steps: seq<Step>, s: State)
    requires Reaches(Initial(t), steps, s)
    ensures LastTooLarge(t, s) ==> |s.got| == |s.sent| - 1
    ensures Lost(s) || s.client == Idle || s.server == Ended
            || Next(s, ClientMoves).Some? || Next(s, ServerMoves).Some?
  {
    RunKeepsInv(t, Initial(t), steps, s);
  }

  /** A client that has sent its datagram waits exactly when an answer to it is due. */
  lemma WaitsIffDue(t: Tables, steps: seq<Step>, s: State)
    requires Reaches(Initial(t), steps, s) && (s.client == Awaiting || s.client == Finished)
    ensures s.sent != [] && |s.got| == |s.sent| - 1
    ensures s.client == Awaiting <==> ReplyAt(t, s.sent, |s.sent| - 1).Some?
  {
    RunKeepsInv(t, Initial(t), steps, s);
  }

  // ---- every exchange ends ----

  /** A step that answers what has been asked. */
  function MoveNext(s: State, step: Step): Option<State> {
    if step.Types? then None else Next(s, step)
  }

  /** How many such steps there are still to take: where the token is on its way. */
  function Work(s: State): nat {
    match s.client
    case Idle => 0
    case Sending(_) => 9
    case Raising(_) => 8
    case Reading => 1
    case _ =>
      match s.server
      case Listening => if s.semClient > 0 then 7 else if s.semServer > 0 then 2 else 0
      case Copying => 6
      case Deciding(_) => 5
      case Replying(_) => 4
      case RaisingReply => 3
      case Ended => 0
  }

  lemma MoveShrinksWork(t: Tables, s: State, step: Step)
    requires Inv(t, s) && MoveNext(s, step).Some?
    ensures Inv(t, MoveNext(s, step).value) && MoveNext(s, step).value.sent == s.sent
    ensures Work(MoveNext(s, step).value) < Work(s)
  {
    if step == ClientMoves { ClientKeepsInv(t, s); } else { ServerKeepsInv(t, s); }
  }

  lemma {:induction false} MovesShrinkWork(t: Tables, s0: State, moves: seq<Step>, s: State)
    requires Inv(t, s0) && IsRun(MoveNext, s0, moves, s)
    ensures Inv(t, s) && s.sent == s0.sent && |moves| + Work(s) <= Work(s0)
    decreases |moves|
  {
    if moves != [] {
      MoveShrinksWork(t, s0, moves[0]);
      MovesShrinkWork(t, MoveNext(s0, moves[0]).value, moves[1..], s);
    }
  }

  /** Main result, progress. Whoever moves when, at most nine moves settle an exchange: they end
      with the client answered, or the child ended by an exit, or, exactly when the request or
      its reply is too large, with the exchange lost. */
  lemma EveryExchangeEnds(t: Tables, steps: seq<Step>, s: State, moves: seq<Step>, u: State)
    requires Reaches(Initial(t), steps, s) && s.sent != [] && IsRun(MoveNext, s, moves, u)
    ensures |moves| <= Work(s) <= 9 && u.sent == s.sent
    ensures Next(u, ClientMoves) == None && Next(u, ServerMoves) == None ==>
              if LastTooLarge(t, u) then Lost(u) && |u.got| == |u.sent| - 1
              else if Last(u).Exit? then u.server == Ended
              else u.client == Idle && |u.got| == |u.sent|
  {
    assert Inv(t, u) && u.sent == s.sent && |moves| <= Work(s) by {
      RunKeepsInv(t, Initial(t), steps, s);
      MovesShrinkWork(t, s, moves, u);
    }
  }

  // ---- what is too large ----

  /** The last request is a ping of more than 3923 characters, or a consultation that more than 25
      flights match. */
  ghost predicate AsksTooMuch(t: Tables, s: State) {
    && s.sent != []
    && match Last(s)
       case Ping(text) => |text| > 3923
       case Consult(origin, destination) =>
         |Found(After(t, s.sent[..|s.sent| - 1]).flights, origin, destination)| > 25
       case _ => false
  }

  lemma TooLargeIsTooMuch(t: Tables, s: State)
    ensures LastTooLarge(t, s) <==> AsksTooMuch(t, s)
  {
    if s.sent != [] && Last(s).Consult? {
      TwentyFiveFlightsFit(SharedMemory, Found(After(t, s.sent[..|s.sent| - 1]).flights, Last(s).origin, Last(s).destination));
    }
  }

  /** Main result: how an exchange ends, told from the request. At most nine moves, whoever makes
      them when, end a purchase, a cancellation or an addflight with its answer, an exit with the
      end of the child, and a ping or a consultation with its answer unless it asks too much; then
      it is lost. */
  lemma OutcomeIsExact(t: Tables, steps: seq<Step>, s: State, moves: seq<Step>, u: State)
    requires Reaches(Initial(t), steps, s) && s.sent != [] && IsRun(MoveNext, s, moves, u)
    ensures |moves| <= 9 && u.sent == s.sent
    ensures Next(u, ClientMoves) == None && Next(u, ServerMoves) == None ==>
              if AsksTooMuch(t, s) then Lost(u) && |u.got| == |u.sent| - 1
              else if Last(s).Exit? then u.server == Ended
              else u.client == Idle && |u.got| == |u.sent|
                   && Some(u.got[|u.got| - 1]) == ReplyAt(t, u.sent, |u.sent| - 1)
  {
    EveryExchangeEnds(t, steps, s, moves, u);
    TooLargeIsTooMuch(t, u);
    assert Inv(t, u) by {
      RunKeepsInv(t, Initial(t), steps, s);
      MovesShrinkWork(t, s, moves, u);
    }
  }

  // ---- what exit leaves ----

  /** When the client has sent OP_EXIT and the child has read it, the file is what the
      commands up to the commit point leave. */
  lemma ExitLeavesDurablePrefix(t: Tables, steps: seq<Step>, s: State)
    requires Reaches(Initial(t), steps, s) && s.server == Ended
    ensures s.taken == s.sent && s.sent != [] && Last(s).Exit?
    ensures s.db.durable == After(t, s.sent[..CommitPoint(t, s.sent)])
  {
    RunKeepsInv(t, Initial(t), steps, s);
    DurablePrefix(t, s.sent);
    assert s.sent[..|s.sent|] == s.sent;
  }

  /** Asking for all flights when there are more than 25 hangs the connection: the reply is
      dropped and both sides wait for ever. */
  lemma TwentySixFlightsHang(t: Tables) returns (steps: seq<Step>, s: State)
    requires |Found(t.flights, -1, -1)| > 25
    ensures Reaches(Initial(t), steps, s) && Lost(s) && s.sent == [Consult(-1, -1)] && s.got == []
  {
    var r := Consult(-1, -1);
    steps, s := Extend(Next, Initial(t), [], Initial(t), Types(r));
    steps, s := Extend(Next, Initial(t), steps, s, ClientMoves);
    steps, s := Extend(Next, Initial(t), steps, s, ClientMoves);
    steps, s := Extend(Next, Initial(t), steps, s, ServerMoves);
    steps, s := Extend(Next, Initial(t), steps, s, ServerMoves);
    assert s.server == Deciding(Ask(r));
    steps, s := Extend(Next, Initial(t), steps, s, ServerMoves);
    TwentyFiveFlightsFit(SharedMemory, Found(t.flights, -1, -1));
    steps, s := Extend(Next, Initial(t), steps, s, ServerMoves);
  }
}
