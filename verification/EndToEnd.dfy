/** The pieces put together: from the text of a command to the answer that is printed. */
module EndToEnd {
  import opened Types
  import opened Tables
  import opened Database
  import opened Durability
  import opened Server
  import opened Commands
  import opened Wire
  import opened Bytes
  import opened Projections
  import opened MsgQueue
  import opened MsgQueueSession
  import M = MsgQueue
  import Channel
  import Rendezvous
  import Handshake

  predicate AsksFor(line: string, a: int, b: int) {
    line == ConsultText("from", a, "to", b) || line == ConsultText("to", b, "from", a)
  }

  lemma {:induction false} FoundAreRows(flights: seq<Flight>, origin: int, destination: int)
    ensures forall i :: 0 <= i < |Found(flights, origin, destination)| ==> IsRow(Found(flights, origin, destination)[i])
  {
    if flights != [] {
      FoundAreRows(flights[..|flights| - 1], origin, destination);
    }
  }

  /** One consultation, start to finish: the line is parsed and dispatched, the matching flights
      are selected, laid out in the answer's bytes, and read back out of them. For up to 25
      matches, which is what can be sent, the client reads exactly the flights from a to b, -1
      standing for any airport, in table order and each once. */
  method ConsultCommand(client: Client, db: Database, line: string, a: int, b: int, build: Build, date: string -> Option<int>)
      returns (rows: seq<Flight>)
    requires IsInt32(a) && IsInt32(b) && AsksFor(line, a, b)
    requires ConnValid(db.View()) && |Found(db.working.flights, a, b)| <= 25
    modifies client, db
    ensures db.View() == old(db.View())
    ensures Selects(db.working.flights, a, b, rows, Hits(db.working.flights, a, b))
  {
    ConsultMeansWhatItSays(a, b, client.isAdmin, date);
    ghost var found := Found(db.working.flights, a, b);
    FoundAreRows(db.working.flights, a, b);
    FoundIsExact(db.working.flights, a, b);
    var request := client.CommandToDatagram(line, date);
    var ans := ExecuteDatagram(db, request.value);
    var datagram := ConsultAnswer(build, ans.value.rows);
    rows := ParseConsultAnswer(build, datagram);
    CarriesIsUnique(build, datagram[..], found, rows);
  }

  /** Over the message queue, among any other clients and in any interleaving, for every command:
      the answer that the client receives is what the sequential specification answers to the
      line it typed, at a moment between its request and its answer. `i` is that moment in the
      server's log. */
  lemma CommandOverQueue(t: Tables, steps: seq<Step>, s: M.State, p: int, line: string,
                         isAdmin: bool, date: string -> Option<int>) returns (i: nat)
    requires Reaches(Initial(t), steps, s) && Next(s, Receives(p)).Some?
    requires Parsable(line) && SentLast(s.clients[p], MeaningOf(line, isAdmin, date))
    ensures s.clients[p].sentAt <= i < |s.log| && MeaningOf(line, isAdmin, date).Some?
    ensures Some(LastGot(s, p)) == Apply(After(t, Requests(s.log)[..i]), MeaningOf(line, isAdmin, date).value).1
  {
    i := AnswerTakesEffectInTime(t, steps, s, p);
    assert Requests(s.log)[i] == MeaningOf(line, isAdmin, date).value;
  }

  /** Over the message queue, among any other clients and in any interleaving: when the client
      that typed the line receives its answer, it holds exactly the flights from a to b at a
      moment between its request and its answer. `i` is that moment in the server's log. */
  lemma ConsultOverQueue(t: Tables, steps: seq<Step>, s: M.State, p: int, line: string, a: int, b: int,
                         isAdmin: bool, date: string -> Option<int>) returns (i: nat, rows: seq<Flight>)
    requires IsInt32(a) && IsInt32(b) && AsksFor(line, a, b)
    requires Reaches(Initial(t), steps, s) && Next(s, Receives(p)).Some?
    requires Parsable(line) && SentLast(s.clients[p], MeaningOf(line, isAdmin, date))
    ensures s.clients[p].sentAt <= i < |s.log|
    ensures LastGot(s, p) == Flights(rows)
    ensures |rows| <= 25 && forall j :: 0 <= j < |rows| ==> IsRow(rows[j])
    ensures FoundAt(t, s.log, i, a, b, rows)
  {
    ConsultMeansWhatItSays(a, b, isAdmin, date);
    i := CommandOverQueue(t, steps, s, p, line, isAdmin, date);
    var flights := After(t, Requests(s.log)[..i]).flights;
    rows := Found(flights, a, b);
    FoundIsExact(flights, a, b);
    FoundAreRows(flights, a, b);
    assert |rows| <= 25 by {
      ReceivedFits(s, p);
      TwentyFiveFlightsFit(MessageQueue, rows);
    }
  }

  /** The answer that client `p` receives next. */
  function LastGot(s: M.State, p: int): Reply
    requires Next(s, Receives(p)).Some?
  {
    Next(s, Receives(p)).value.clients[p].got[|s.clients[p].got|]
  }

  /** What a client can receive is an answer to it within the receive limit. */
  lemma ReceivedFits(s: M.State, p: int)
    requires Next(s, Receives(p)).Some?
    ensures p in s.clients && s.clients[p].pc == Waiting && !s.server.Stopped?
    ensures var i := FirstFor(s.toClients, p);
            && i < |s.toClients| && s.toClients[i].body.Answer? && Fits(MessageQueue, s.toClients[i].body)
            && LastGot(s, p) == s.toClients[i].body.reply
  {}

  /** The last request that the client has sent, if any. */
  predicate SentLast(c: M.ClientState, request: Option<Request>) {
    c.sent != [] ==> request == Some(c.sent[|c.sent| - 1])
  }

  /** The rows are the flights from a to b after the first `i` requests of the log. */
  ghost predicate FoundAt(t: Tables, log: seq<M.Entry>, i: nat, a: int, b: int, rows: seq<Flight>) {
    && i <= |log|
    && var flights := After(t, Requests(log)[..i]).flights;
       Selects(flights, a, b, rows, Hits(flights, a, b))
  }

  // ---- the same in bytes ----

  /** The queue to the clients as it is: types and datagrams. */
  class ByteQueue {
    var msgs: seq<(int, seq<byte>)>

    constructor ()
      ensures msgs == []
    {
      msgs := [];
    }
  }

  /** The bytes are those of the answers in `q`; only answers to consultations are laid out. */
  ghost predicate Stands(msgs: seq<(int, seq<byte>)>, q: seq<Msg>) {
    && |msgs| == |q|
    && (forall i :: 0 <= i < |q| ==> msgs[i].0 == q[i].mtype)
    && (forall i :: 0 <= i < |q| && q[i].body.Answer? && q[i].body.reply.Flights? ==>
          Carries(MessageQueue, msgs[i].1, q[i].body.reply.rows) && |msgs[i].1| == Size(MessageQueue, q[i].body))
  }

  /** The server lays out the answer and sends it. */
  method SendConsult(bytes: ByteQueue, session: ServerSession, sender: int, rows: seq<Flight>,
                     ghost clients: map<int, M.ClientState>)
    requires session.Valid() && session.pc == Sending(sender, Flights(rows))
    requires |rows| <= 26 && (forall i :: 0 <= i < |rows| ==> IsRow(rows[i]))
    requires Stands(bytes.msgs, session.queues.toClients)
    modifies bytes, session`pc, session.queues`toClients
    ensures session.Valid() && Next(old(session.View(clients)), ServerMoves) == Some(session.View(clients))
    ensures Stands(bytes.msgs, session.queues.toClients)
  {
    var datagram := ConsultAnswer(MessageQueue, rows);
    bytes.msgs := bytes.msgs + [(sender, datagram[..])];
    session.IpcSend(sender, Flights(rows), clients);
  }

  /** msgrcv on the bytes. */
  method TakeBytes(bytes: ByteQueue, pid: int, ghost q: seq<Msg>) returns (data: seq<byte>)
    requires Stands(bytes.msgs, q) && FirstFor(q, pid) < |q|
    modifies bytes
    ensures data == old(bytes.msgs)[FirstFor(q, pid)].1
    ensures Stands(bytes.msgs, Without(q, FirstFor(q, pid)))
  {
    var i := 0;
    while bytes.msgs[i].0 != pid
      invariant 0 <= i < |q| && bytes.msgs == old(bytes.msgs)
      invariant FirstFor(q, pid) == i + FirstFor(q[i..], pid)
      decreases |q| - i
    {
      assert q[i..][1..] == q[i + 1..];
      i := i + 1;
    }
    data := bytes.msgs[i].1;
    bytes.msgs := Without(bytes.msgs, i);
  }

  method ParseBytes(data: seq<byte>, ghost rows: seq<Flight>) returns (parsed: seq<Flight>)
    requires Carries(MessageQueue, data, rows)
    ensures parsed == rows
  {
    var datagram := new byte[|data|];
    Copy(datagram, 0, data);
    assert datagram[..] == data;
    parsed := ParseConsultAnswer(MessageQueue, datagram);
    CarriesIsUnique(MessageQueue, data, rows, parsed);
  }

  /** A consultation from its text to the rows that are printed, through the queue's bytes: what
      the client that typed the line reads out of the datagram it receives are exactly the flights
      from a to b at a moment between its request and its answer. */
  method ReceiveConsult(bytes: ByteQueue, session: ClientSession, ghost rest: M.State, ghost t: Tables, ghost steps: seq<Step>,
                        ghost line: string, ghost a: int, ghost b: int, ghost isAdmin: bool, ghost date: string -> Option<int>)
      returns (rows: seq<Flight>)
    requires session.me.Some? && session.me.value.pc == Waiting && !rest.server.Stopped?
    requires Reaches(Initial(t), steps, session.View(rest)) && Next(session.View(rest), Receives(session.pid)).Some?
    requires IsInt32(a) && IsInt32(b) && AsksFor(line, a, b)
    requires Parsable(line) && SentLast(session.me.value, MeaningOf(line, isAdmin, date))
    requires Stands(bytes.msgs, session.queues.toClients)
    modifies bytes, session`me, session.queues`toClients
    ensures Stands(bytes.msgs, session.queues.toClients)
    ensures exists i: nat :: old(session.me.value.sentAt) <= i < |rest.log| && FoundAt(t, rest.log, i, a, b, rows)
  {
    ghost var i, found := ConsultOverQueue(t, steps, session.View(rest), session.pid, line, a, b, isAdmin, date);
    ReceivedFits(session.View(rest), session.pid);
    var data := TakeBytes(bytes, session.pid, session.queues.toClients);
    rows := ParseBytes(data, found);
    var answer := session.IpcReceive(rest);
    assert FoundAt(t, rest.log, i, a, b, rows);
  }

  // ---- how far the tables get by commands ----

  function Adds(n: nat): seq<Request> {
    seq(n, i => AddFlight(0, 1, 2))
  }

  lemma {:induction false} AddsAreFound(n: nat)
    ensures |Found(After(EMPTY, Adds(n)).flights, -1, -1)| == n
  {
    if n > 0 {
      AddsAreFound(n - 1);
      var before := After(EMPTY, Adds(n - 1));
      assert Adds(n) == Adds(n - 1) + [AddFlight(0, 1, 2)];
      AfterSnoc(EMPTY, Adds(n - 1), AddFlight(0, 1, 2));
      assert After(EMPTY, Adds(n)).flights[..|before.flights|] == before.flights;
    }
  }

  /** One session of addflights leaves as many flights in the file. */
  lemma AddsAreInFile(n: nat)
    ensures |Found(FileAfter(EMPTY, [Adds(n)]).flights, -1, -1)| == n
  {
    var rs := Adds(n);
    CommitPointIsUnique(EMPTY, rs, |rs|);
    DurablePrefix(EMPTY, rs);
    assert rs[..|rs|] == rs;
    assert FileAfter(EMPTY, [rs][..0]) == EMPTY;
    AddsAreFound(n);
  }

  /** 26 addflights in one session, and a consultation in the next hangs. */
  lemma HangIsReachable() returns (steps: seq<Channel.Step>, s: Channel.State)
    ensures Channel.Reaches(Channel.Initial(FileAfter(EMPTY, [Adds(26)])), steps, s) && Channel.Lost(s)
  {
    AddsAreInFile(26);
    steps, s := Channel.TwentySixFlightsHang(FileAfter(EMPTY, [Adds(26)]));
  }

  /** 27, and the rows of a consultation go past the buffer. */
  lemma OverrunIsReachable(b: Build)
    ensures var rows := Found(FileAfter(EMPTY, [Adds(27)]).flights, -1, -1);
            exists i :: 0 <= i < |rows| && EntryAt(b, i) + ENTRY_SIZE > DATAGRAM_MAXSIZE
  {
    AddsAreInFile(27);
    FillStaysInBuffer(b, 27);
  }

  // ---- from the handshake to the private channel ----

  /** A private segment as a channel sees it. */
  function SegmentOf(c: Channel.State): Rendezvous.Segment {
    Rendezvous.Segment(c.page == None, Rendezvous.Pair(Some(c.semClient), Some(c.semServer)))
  }

  /** In every orderly run a connected client shares its segment with one child, and while the
      child lives the handshake leaves the segment as the private channel starts from it. */
  lemma HandshakeOpensChannel(s0: Rendezvous.State, steps: seq<Rendezvous.Step>, s: Rendezvous.State, i: nat, t: Tables)
      returns (k: nat)
    requires Rendezvous.Init(s0) && Handshake.OrderlyRun(s0, steps, s)
    requires i in s.clients && s.clients[i].pc == Rendezvous.Connected
    ensures Handshake.Paired(s, i, k)
    ensures !s.children[k].pc.Dead? ==> k in s.segments && s.segments[k] == SegmentOf(Channel.Initial(t))
  {
    Handshake.HandshakeIsCorrect(s0, steps, s);
    k :| Handshake.Paired(s, i, k);
  }
}
