/** Which waiting clients of the message-queue server are answered. Any client's OP_EXIT stops
    the server, so it depends on where an exit stands; the results hold whatever the other
    clients do in the meantime. */
module Answering {
  import opened Types
  import opened Tables
  import opened Server
  import opened Projections
  import opened Runs
  import opened MsgQueue

  // ---- what can be told from the queues ----

  /** An answer is in the queue for client `p`. */
  predicate AnswerIsIn(s: State, p: int) {
    FirstFor(s.toClients, p) < |s.toClients|
  }

  predicate Answerable(r: Request) {
    !r.Exit? && !r.Connect?
  }

  /** The answer is in the queue, or the server has received the request. */
  predicate InHand(s: State, p: int) {
    || AnswerIsIn(s, p)
    || (s.server.Sending? && s.server.pid == p)
    || (s.server.Executing? && s.server.pid == p && Answerable(s.server.request))
  }

  /** The queue holds a request of client `p` at `i`. */
  predicate AskedAt(s: State, p: int, i: nat) {
    i < |s.toServer| && s.toServer[i].mtype == p && s.toServer[i].body.Ask? && Answerable(s.toServer[i].body.request)
  }

  predicate ExitAt(s: State, i: nat) {
    i < |s.toServer| && s.toServer[i].body == Ask(Exit)
  }

  /** The server holds an exit, or one stands in its queue before every request of client `p`. */
  ghost predicate ExitAhead(s: State, p: int) {
    || s.server.Stopped?
    || (s.server.Executing? && s.server.request.Exit?)
    || exists j: nat :: ExitAt(s, j) && forall i: nat :: i <= j ==> !AskedAt(s, p, i)
  }

  ghost predicate WillBeAnswered(s: State, p: int) {
    !s.server.Stopped? && (InHand(s, p) || !ExitAhead(s, p))
  }

  /** Taking the head off the queue moves everything one place forward. */
  lemma Forward(s: State, v: State, p: int)
    requires s.toServer != [] && v.toServer == s.toServer[1..]
    ensures forall i: nat :: i > 0 ==> (AskedAt(s, p, i) <==> AskedAt(v, p, i - 1)) && (ExitAt(s, i) <==> ExitAt(v, i - 1))
  {}

  // ---- the answer comes after so many moves of the server ----

  ghost predicate NoExitUpTo(s: State, i: nat) {
    forall j: nat :: j <= i ==> !ExitAt(s, j)
  }

  /** Moves that the server needs to be done with what it holds. */
  function Held(s: State): nat {
    match s.server case Executing(_, _) => 2 case Sending(_, _) => 1 case _ => 0
  }

  /** Client `p` waits, and its answer is there after at most `n` more moves of the server. */
  ghost predicate DueIn(s: State, p: int, n: nat) {
    && WellRouted(s) && p in s.clients && s.clients[p].pc == Waiting && !s.server.Stopped?
    && (|| AnswerIsIn(s, p)
        || (InHand(s, p) && Held(s) <= n)
        || (!(s.server.Executing? && s.server.request.Exit?)
            && exists i: nat :: AskedAt(s, p, i) && NoExitUpTo(s, i) && 3 * (i + 1) + Held(s) <= n))
  }

  lemma DueAfterTaking(s: State, v: State, p: int, n: nat)
    requires DueIn(s, p, n) && !AnswerIsIn(s, p) && (s.server.Accepting? || s.server.Serving?)
    requires ServerNext(s) == Some(v) && WellRouted(v)
    ensures n > 0 && DueIn(v, p, n - 1)
  {
    Forward(s, v, p);
    var i: nat :| AskedAt(s, p, i) && NoExitUpTo(s, i) && 3 * (i + 1) + Held(s) <= n;
    assert !ExitAt(s, 0);
    if i > 0 {
      assert AskedAt(v, p, i - 1);
      forall j: nat | j <= i - 1 ensures !ExitAt(v, j) {
        assert !ExitAt(s, j + 1);
      }
    }
  }

  lemma DueAfterOther(s: State, v: State, p: int, n: nat)
    requires DueIn(s, p, n) && !AnswerIsIn(s, p) && (s.server.Executing? || s.server.Sending?)
    requires ServerNext(s) == Some(v) && WellRouted(v)
    ensures n > 0 && DueIn(v, p, n - 1)
  {
    if s.server.Sending? && s.server.pid == p {
      assert v.toClients[|s.toClients|].mtype == p;
    } else if !InHand(s, p) {
      var i: nat :| AskedAt(s, p, i) && NoExitUpTo(s, i) && 3 * (i + 1) + Held(s) <= n;
      assert AskedAt(v, p, i);
      forall j: nat | j <= i ensures !ExitAt(v, j) {
        assert !ExitAt(s, j);
      }
    }
  }

  lemma DueAfterMove(s: State, p: int, n: nat)
    requires DueIn(s, p, n) && !AnswerIsIn(s, p)
    ensures n > 0 && Next(s, ServerMoves).Some? && DueIn(Next(s, ServerMoves).value, p, n - 1)
  {
    var v := ServerNext(s).value;
    StepKeepsRouting(s, ServerMoves);
    if s.server.Accepting? || s.server.Serving? { DueAfterTaking(s, v, p, n); } else { DueAfterOther(s, v, p, n); }
  }

  /** What other clients queue comes behind. */
  lemma QueuedBehind(s: State, v: State, m: Msg, p: int)
    requires v.toServer == s.toServer + [m]
    ensures forall i: nat :: i < |s.toServer| ==> (AskedAt(v, p, i) <==> AskedAt(s, p, i)) && (ExitAt(v, i) <==> ExitAt(s, i))
  {}

  lemma ClientStepAppends(s: State, step: Step) returns (m: Msg)
    requires (step.Connects? || step.Sends?) && Next(s, step).Some?
    ensures var v := Next(s, step).value;
            && v.toServer == s.toServer + [m] && v.toClients == s.toClients && v.server == s.server
            && forall p :: p in s.clients && s.clients[p].pc == Waiting ==> p in v.clients && v.clients[p] == s.clients[p]
  {
    m := if step.Connects? then Msg(step.pid, Ask(Connect)) else Msg(step.pid, Ask(step.request));
  }

  lemma DueAfterQueueing(s: State, v: State, m: Msg, p: int, n: nat)
    requires DueIn(s, p, n) && !AnswerIsIn(s, p) && WellRouted(v)
    requires v.toServer == s.toServer + [m] && v.toClients == s.toClients && v.server == s.server
    requires p in v.clients && v.clients[p] == s.clients[p]
    ensures DueIn(v, p, n)
  {
    if !InHand(s, p) {
      QueuedBehind(s, v, m, p);
      var i: nat :| AskedAt(s, p, i) && NoExitUpTo(s, i) && 3 * (i + 1) + Held(s) <= n;
      assert AskedAt(v, p, i);
      forall j: nat | j <= i ensures !ExitAt(v, j) {
        assert !ExitAt(s, j);
      }
    }
  }

  /** Another client takes its own answer only. */
  lemma OthersReceive(s: State, q: int, p: int)
    requires Next(s, Receives(q)).Some? && p in s.clients && !AnswerIsIn(s, p)
    ensures var v := Next(s, Receives(q)).value;
            && q != p && !AnswerIsIn(v, p) && v.toServer == s.toServer && v.server == s.server
            && p in v.clients && v.clients[p] == s.clients[p]
  {
    var v := Next(s, Receives(q)).value;
    var i := FirstFor(s.toClients, q);
    assert FirstFor(s.toClients, p) == |s.toClients|;
    assert q != p;
    assert forall j :: 0 <= j < |v.toClients| ==> v.toClients[j] == s.toClients[if j < i then j else j + 1];
  }

  lemma DueAfterReceipt(s: State, v: State, p: int, n: nat)
    requires DueIn(s, p, n) && !AnswerIsIn(s, p) && WellRouted(v)
    requires v.toServer == s.toServer && v.server == s.server && p in v.clients && v.clients[p] == s.clients[p]
    ensures DueIn(v, p, n)
  {
    if !InHand(s, p) {
      var i: nat :| AskedAt(s, p, i) && NoExitUpTo(s, i) && 3 * (i + 1) + Held(s) <= n;
      assert AskedAt(v, p, i);
      forall j: nat | j <= i ensures !ExitAt(v, j) {
        assert !ExitAt(s, j);
      }
    }
  }

  lemma DueAfterOthersStep(s: State, step: Step, p: int, n: nat)
    requires DueIn(s, p, n) && !AnswerIsIn(s, p) && Next(s, step).Some? && !step.ServerMoves?
    ensures DueIn(Next(s, step).value, p, n)
  {
    var v := Next(s, step).value;
    StepKeepsRouting(s, step);
    if step.Receives? {
      OthersReceive(s, step.pid, p);
      DueAfterReceipt(s, v, p, n);
    } else {
      var m := ClientStepAppends(s, step);
      DueAfterQueueing(s, v, m, p, n);
    }
  }

  function ServerMovesIn(steps: seq<Step>): nat {
    if steps == [] then 0 else (if steps[0].ServerMoves? then 1 else 0) + ServerMovesIn(steps[1..])
  }

  /** In any run with `n` moves of the server there is a state in which the answer is there. */
  lemma {:induction false} DueIsAnswered(s: State, more: seq<Step>, u: State, p: int, n: nat) returns (k: nat, v: State)
    requires DueIn(s, p, n) && Reaches(s, more, u) && ServerMovesIn(more) >= n
    ensures k <= |more| && Reaches(s, more[..k], v) && DueIn(v, p, n) && AnswerIsIn(v, p)
    decreases |more|
  {
    if AnswerIsIn(s, p) {
      return 0, s;
    }
    DueAfterMove(s, p, n);
    var step, w := more[0], Next(s, more[0]).value;
    var m := if step.ServerMoves? then n - 1 else n;
    if !step.ServerMoves? { DueAfterOthersStep(s, step, p, n); }
    var i;
    i, v := DueIsAnswered(w, more[1..], u, p, m);
    k := i + 1;
    assert more[..k][1..] == more[1..][..i];
  }

  // ---- how much that is at most ----

  /** How many moves the server can make before it has to wait for a request. */
  function ServerWork(s: State): nat {
    3 * |s.toServer| + Held(s)
  }

  lemma WaitingIsOwed(s: State, p: int)
    requires WellRouted(s) && p in s.clients && ClientInv(s, p) && s.clients[p].pc == Waiting && !s.server.Stopped?
    ensures InHand(s, p) || exists i: nat :: AskedAt(s, p, i)
  {
    var c := s.clients[p];
    var mine := Pick(s.log, EntryOf(p));
    assert |Replies(mine)| == |mine| == |Requests(mine)|;
    if !AnswerIsIn(s, p) && HeldReply(s, p) == [] {
      assert Pick(s.toClients, ReplyTo(p)) == [] by { PickNothing(s.toClients, ReplyTo(p)); }
      assert |HeldRequest(s, p) + Pick(s.toServer, RequestOf(p))| == 1;
      if HeldRequest(s, p) == [] {
        var at := Places(s.toServer, RequestOf(p));
        PlacesArePicks(s.toServer, RequestOf(p));
        assert RequestOf(p)(s.toServer[at[0]]) == Some(c.sent[|c.sent| - 1]);
        assert AskedAt(s, p, at[0]);
      }
    }
  }

  lemma {:induction false} FirstAsked(s: State, p: int, i: nat) returns (first: nat)
    requires AskedAt(s, p, i)
    ensures first <= i && AskedAt(s, p, first) && forall j: nat :: j < first ==> !AskedAt(s, p, j)
  {
    if j: nat :| j < i && AskedAt(s, p, j) {
      first := FirstAsked(s, p, j);
    } else {
      first := i;
    }
  }

  lemma AnswerIsDue(s: State, p: int)
    requires WellRouted(s) && p in s.clients && s.clients[p].pc == Waiting && WillBeAnswered(s, p)
    requires InHand(s, p) || exists i: nat :: AskedAt(s, p, i)
    ensures DueIn(s, p, ServerWork(s))
  {
    if !InHand(s, p) {
      var i: nat :| AskedAt(s, p, i);
      var first := FirstAsked(s, p, i);
      assert forall j: nat :: ExitAt(s, j) ==> exists i: nat :: i <= j && AskedAt(s, p, i);
      assert NoExitUpTo(s, first);
    }
  }

  // ---- or it never comes ----

  /** With an exit ahead, the server stops before it comes to the request. */
  ghost predicate CutOff(s: State, p: int) {
    ExitAhead(s, p) && !InHand(s, p)
  }

  lemma TakingKeepsCutOff(s: State, v: State, p: int)
    requires CutOff(s, p) && (s.server.Accepting? || s.server.Serving?) && ServerNext(s) == Some(v)
    ensures CutOff(v, p)
  {
    Forward(s, v, p);
    var j: nat :| ExitAt(s, j) && forall i: nat :: i <= j ==> !AskedAt(s, p, i);
    assert !AskedAt(s, p, 0);
    if j > 0 {
      assert ExitAt(v, j - 1);
      forall i: nat | i <= j - 1 ensures !AskedAt(v, p, i) {
        assert !AskedAt(s, p, i + 1);
      }
    }
  }

  lemma FirstForOther(q: seq<Msg>, m: Msg, p: int)
    requires FirstFor(q, p) == |q| && m.mtype != p
    ensures FirstFor(q + [m], p) == |q| + 1
  {
    assert forall i :: 0 <= i < |q| ==> (q + [m])[i].mtype != p;
  }

  lemma OtherMovesKeepCutOff(s: State, v: State, p: int)
    requires CutOff(s, p) && (s.server.Executing? || s.server.Sending?) && ServerNext(s) == Some(v)
    ensures CutOff(v, p)
  {
    if s.server.Sending? { FirstForOther(s.toClients, Msg(s.server.pid, Answer(s.server.reply)), p); }
    if !(s.server.Executing? && s.server.request.Exit?) {
      var j: nat :| ExitAt(s, j) && forall i: nat :: i <= j ==> !AskedAt(s, p, i);
      assert ExitAt(v, j);
      forall i: nat | i <= j ensures !AskedAt(v, p, i) {
        assert !AskedAt(s, p, i);
      }
    }
  }

  lemma CutOffByServer(s: State, p: int)
    requires CutOff(s, p) && Next(s, ServerMoves).Some?
    ensures CutOff(Next(s, ServerMoves).value, p)
  {
    var v := Next(s, ServerMoves).value;
    if s.server.Accepting? || s.server.Serving? { TakingKeepsCutOff(s, v, p); } else { OtherMovesKeepCutOff(s, v, p); }
  }

  lemma CutOffByQueueing(s: State, v: State, m: Msg, p: int)
    requires CutOff(s, p) && v.toServer == s.toServer + [m] && v.toClients == s.toClients && v.server == s.server
    ensures CutOff(v, p)
  {
    if !s.server.Stopped? && !(s.server.Executing? && s.server.request.Exit?) {
      QueuedBehind(s, v, m, p);
      var j: nat :| ExitAt(s, j) && forall i: nat :: i <= j ==> !AskedAt(s, p, i);
      assert ExitAt(v, j);
      forall i: nat | i <= j ensures !AskedAt(v, p, i) {
        assert !AskedAt(s, p, i);
      }
    }
  }

  lemma CutOffByReceipt(s: State, v: State, p: int)
    requires CutOff(s, p) && !AnswerIsIn(v, p) && v.toServer == s.toServer && v.server == s.server
    ensures CutOff(v, p)
  {
    if !s.server.Stopped? && !(s.server.Executing? && s.server.request.Exit?) {
      var j: nat :| ExitAt(s, j) && forall i: nat :: i <= j ==> !AskedAt(s, p, i);
      assert ExitAt(v, j);
      forall i: nat | i <= j ensures !AskedAt(v, p, i) {
        assert !AskedAt(s, p, i);
      }
    }
  }

  lemma CutOffByStep(s: State, step: Step, p: int)
    requires CutOff(s, p) && p in s.clients && s.clients[p].pc == Waiting && Next(s, step).Some?
    ensures var v := Next(s, step).value; CutOff(v, p) && p in v.clients && v.clients[p] == s.clients[p]
  {
    var v := Next(s, step).value;
    match step
    case ServerMoves => CutOffByServer(s, p);
    case Receives(q) =>
      OthersReceive(s, q, p);
      CutOffByReceipt(s, v, p);
    case _ =>
      var m := ClientStepAppends(s, step);
      CutOffByQueueing(s, v, m, p);
  }

  lemma {:induction false} CutOffStays(s: State, more: seq<Step>, u: State, p: int)
    requires CutOff(s, p) && p in s.clients && s.clients[p].pc == Waiting && Reaches(s, more, u)
    ensures CutOff(u, p) && p in u.clients && u.clients[p] == s.clients[p]
    decreases |more|
  {
    if more != [] {
      CutOffByStep(s, more[0], p);
      CutOffStays(Next(s, more[0]).value, more[1..], u, p);
    }
  }

  // ---- main results ----

  /** Some continuation brings the answer to client `p` before the server stops. */
  ghost predicate AnswerCanCome(s: State, p: int) {
    exists more: seq<Step>, u :: Reaches(s, more, u) && !u.server.Stopped? && AnswerIsIn(u, p)
  }

  lemma WaitingAnswerIsDue(t: Tables, steps: seq<Step>, s: State, p: int)
    requires Reaches(Initial(t), steps, s) && p in s.clients && s.clients[p].pc == Waiting && WillBeAnswered(s, p)
    ensures DueIn(s, p, ServerWork(s))
  {
    assert WellRouted(s) && ClientInv(s, p) by {
      InitialInv(t);
      RunKeepsInv(t, Initial(t), steps, s);
    }
    WaitingIsOwed(s, p);
    AnswerIsDue(s, p);
  }

  /** Main result, progress. In every reachable state, if the server has a waiting client's request
      in hand or no exit is ahead of it, then every continuation, whatever the clients do in it,
      comes to a state in which the answer is there, once the server has made as many moves as
      the length of its queue gives; and the client can take the answer exactly when it is within
      the receive limit. */
  lemma NobodyWaitsInVain(t: Tables, steps: seq<Step>, s: State, p: int, more: seq<Step>, u: State) returns (k: nat, v: State)
    requires Reaches(Initial(t), steps, s) && p in s.clients && s.clients[p].pc == Waiting && WillBeAnswered(s, p)
    requires Reaches(s, more, u) && ServerMovesIn(more) >= ServerWork(s)
    ensures k <= |more| && Reaches(s, more[..k], v) && !v.server.Stopped? && AnswerIsIn(v, p)
    ensures Next(v, Receives(p)).Some? <==> Fits(MessageQueue, v.toClients[FirstFor(v.toClients, p)].body)
  {
    WaitingAnswerIsDue(t, steps, s, p);
    k, v := DueIsAnswered(s, more, u, p, ServerWork(s));
  }

  /** The answer that is queued for a waiting client is the reply to its last request, logged
      since it sent it. */
  lemma QueuedAnswerIsLogged(s: State, p: int) returns (i: nat)
    requires WellRouted(s) && p in s.clients && ClientInv(s, p) && s.clients[p].pc == Waiting && AnswerIsIn(s, p)
    ensures s.clients[p].sent != [] && s.clients[p].sentAt <= i < |s.log|
    ensures s.log[i].pid == p && s.log[i].request == s.clients[p].sent[|s.clients[p].sent| - 1]
    ensures s.toClients[FirstFor(s.toClients, p)].body == Answer(s.log[i].reply)
  {
    var c := s.clients[p];
    var k := |c.got|;
    var mine := Pick(s.log, EntryOf(p));
    var first := FirstFor(s.toClients, p);
    assert Pick(s.toClients, ReplyTo(p))[0] == s.toClients[first].body.reply by {
      PickWithout(s.toClients, first, ReplyTo(p));
    }
    assert Replies(mine) == c.got + (Pick(s.toClients, ReplyTo(p)) + HeldReply(s, p));
    assert |Replies(mine)| == |mine| == |Requests(mine)|;
    assert mine[k].reply == Replies(mine)[k] == s.toClients[first].body.reply;
    assert mine[k].request == Requests(mine)[k] == c.sent[k];
    PlacesArePicks(s.log, EntryOf(p));
    PlaceAfterPrefix(s.log, EntryOf(p), c.sentAt, k);
    i := Places(s.log, EntryOf(p))[k];
  }

  /** The receive limit, told from the request: a ping of more than 3919 characters, or a
      consultation that more than 25 flights match at the time. */
  ghost predicate AsksTooMuch(t: Tables, log: seq<Entry>, i: nat)
    requires i < |log|
  {
    match log[i].request
    case Ping(text) => |text| > 3919
    case Consult(origin, destination) => |Found(After(t, Requests(log)[..i]).flights, origin, destination)| > 25
    case _ => false
  }

  /** Main result: a queued answer can be received unless its request asked too much; so the answer
      to a purchase, a cancellation or an addflight always can. */
  lemma QueuedAnswerIsReceivable(t: Tables, steps: seq<Step>, s: State, p: int) returns (i: nat)
    requires Reaches(Initial(t), steps, s) && p in s.clients && s.clients[p].pc == Waiting
    requires !s.server.Stopped? && AnswerIsIn(s, p)
    ensures s.clients[p].sent != [] && s.clients[p].sentAt <= i < |s.log|
    ensures s.log[i].pid == p && s.log[i].request == s.clients[p].sent[|s.clients[p].sent| - 1]
    ensures Next(s, Receives(p)).Some? <==> !AsksTooMuch(t, s.log, i)
  {
    assert WellRouted(s) && ClientInv(s, p) && LogIsSequential(t, s.db, s.log) by {
      InitialInv(t);
      RunKeepsInv(t, Initial(t), steps, s);
    }
    i := QueuedAnswerIsLogged(s, p);
    assert Some(s.log[i].reply) == ReplyAt(t, Requests(s.log), i);
    assert Requests(s.log)[i] == s.log[i].request;
    FitsIfNotTooMuch(t, s.log, i);
  }

  lemma FitsIfNotTooMuch(t: Tables, log: seq<Entry>, i: nat)
    requires i < |log| && Some(log[i].reply) == Apply(After(t, Requests(log)[..i]), log[i].request).1
    ensures Fits(MessageQueue, Answer(log[i].reply)) <==> !AsksTooMuch(t, log, i)
  {
    if log[i].request.Consult? {
      TwentyFiveFlightsFit(MessageQueue, log[i].reply.rows);
    }
  }

  /** Anybody can connect to a running server. */
  lemma AnybodyConnects(s: State, p: int)
    requires p !in s.clients && p > 0 && !s.server.Stopped?
    ensures Next(s, Connects(p)).Some?
    ensures var u := Next(s, Connects(p)).value; p in u.clients && u.clients[p] == ClientState(Idle, [], [], 0)
  {}

  /** What a client can send: anything but a ping of more than 3915 characters. */
  lemma RequestIsSendable(s: State, p: int, r: Request)
    requires p in s.clients && s.clients[p].pc == Idle && !s.server.Stopped? && !r.Connect?
    ensures Next(s, Sends(p, r)).Some? <==> !(r.Ping? && |r.text| > 3915)
  {}

  /** Until then nothing keeps the server from moving. */
  lemma {:induction false} ServerBringsAnswer(s: State, p: int, n: nat) returns (m: nat, u: State)
    requires DueIn(s, p, n)
    ensures m <= n && Reaches(s, Moves(m), u) && !u.server.Stopped? && AnswerIsIn(u, p)
    decreases n
  {
    if AnswerIsIn(s, p) {
      return 0, s;
    }
    DueAfterMove(s, p, n);
    var v := Next(s, ServerMoves).value;
    var i, w := ServerBringsAnswer(v, p, n - 1);
    MoveFirst(s, v, i, w);
    return i + 1, w;
  }

  /** Main result, exactness. In every reachable state a waiting client's answer can still come,
      whoever moves how, exactly when the server has the request in hand or no exit is ahead of
      it; and then the server's own moves bring it, boundedly many. */
  lemma AnswerComesIff(t: Tables, steps: seq<Step>, s: State, p: int)
    requires Reaches(Initial(t), steps, s) && p in s.clients && s.clients[p].pc == Waiting
    ensures AnswerCanCome(s, p) <==> WillBeAnswered(s, p)
    ensures WillBeAnswered(s, p) ==>
              exists m: nat, u :: m <= ServerWork(s) && Reaches(s, Moves(m), u) && !u.server.Stopped? && AnswerIsIn(u, p)
  {
    if WillBeAnswered(s, p) {
      WaitingAnswerIsDue(t, steps, s, p);
      var m, u := ServerBringsAnswer(s, p, ServerWork(s));
    } else if s.server.Stopped? {
      forall more: seq<Step>, u | Reaches(s, more, u) ensures u.server.Stopped? {}
    } else {
      forall more: seq<Step>, u | Reaches(s, more, u) ensures !AnswerIsIn(u, p) {
        CutOffStays(s, more, u, p);
      }
    }
  }

  /** One client's exit cuts off another's request that is already queued. */
  lemma ExitCutsOthersOff() returns (steps: seq<Step>, s: State)
    ensures Reaches(Initial(EMPTY), steps, s) && 2 in s.clients && s.clients[2].pc == Waiting && !s.server.Stopped?
    ensures s.clients[2].sent == [Ping("")] && !AnswerCanCome(s, 2)
  {
    var s0 := Initial(EMPTY);
    steps, s := Extend(Next, s0, [], s0, Connects(1));
    steps, s := Extend(Next, s0, steps, s, Connects(2));
    steps, s := Extend(Next, s0, steps, s, ServerMoves);
    steps, s := Extend(Next, s0, steps, s, Sends(1, Exit));
    steps, s := Extend(Next, s0, steps, s, Sends(2, Ping("")));
    assert s.toServer == [Msg(2, Ask(Connect)), Msg(1, Ask(Exit)), Msg(2, Ask(Ping("")))];
    assert ExitAt(s, 1) && !AskedAt(s, 2, 0) && !AskedAt(s, 2, 1);
    AnswerComesIff(EMPTY, steps, s, 2);
  }
}
