/** The processes of the message-queue back end, as they call the kernel: ipc_send, ipc_receive,
    ipc_accept and ipc_connect of ipc/msgqueue.c and the server's main loop. Every method of the
    two sessions is a step, or a run of steps, of the state machine in MsgQueue.dfy. */
module MsgQueueSession {
  import opened Types
  import opened Database
  import opened Server
  import opened Projections
  import opened Runs
  import opened MsgQueue

  /** The two System V queues, which every process shares. */
  class Kernel {
    var toServer: seq<Msg>
    var toClients: seq<Msg>

    constructor ()
      ensures toServer == [] && toClients == []
    {
      toServer, toClients := [], [];
    }

    /** msgrcv with a positive type, once there is such a message: the first of that type, or
        nothing at all when that one is above the limit. */
    method ReceiveFor(pid: int) returns (m: Option<Msg>)
      requires FirstFor(toClients, pid) < |toClients|
      modifies this`toClients
      ensures var i := FirstFor(old(toClients), pid);
              var first := old(toClients)[i];
              && m == (if Fits(MessageQueue, first.body) then Some(first) else None)
              && toClients == (if m == None then old(toClients) else Without(old(toClients), i))
    {
      var i := 0;
      while toClients[i].mtype != pid
        invariant 0 <= i < |toClients| && toClients == old(toClients)
        invariant FirstFor(toClients, pid) == i + FirstFor(toClients[i..], pid)
        decreases |toClients| - i
      {
        assert toClients[i..][1..] == toClients[i + 1..];
        i := i + 1;
      }
      if !Fits(MessageQueue, toClients[i].body) {
        return None;
      }
      m := Some(toClients[i]);
      toClients := Without(toClients, i);
    }
  }

  lemma ReachesConcat(a: State, m: nat, b: State, n: nat, c: State)
    requires Reaches(a, Moves(m), b) && Reaches(b, Moves(n), c)
    ensures Reaches(a, Moves(m + n), c)
  {
    RunConcat(Next, a, Moves(m), b, Moves(n), c);
    assert Moves(m) + Moves(n) == Moves(m + n);
  }

  lemma OneMove(a: State, b: State)
    requires Next(a, ServerMoves) == Some(b)
    ensures Reaches(a, Moves(1), b)
  {
    MoveFirst(a, b, 0, b);
  }

  class ServerSession {
    const queues: Kernel
    const db: Database
    ghost var pc: ServerPc
    ghost var log: seq<Entry>

    /** The state machine's state, for any clients. */
    ghost function View(clients: map<int, ClientState>): State
      reads this, queues, db
    {
      State(queues.toServer, queues.toClients, pc, db.View(), clients, log)
    }

    ghost predicate Valid()
      reads this, queues, db
    {
      && ConnValid(db.View())
      && forall i :: 0 <= i < |queues.toServer| ==> queues.toServer[i].body.Ask?
    }

    constructor (kernel: Kernel, database: Database)
      ensures queues == kernel && db == database && pc == Accepting && log == []
    {
      queues, db, pc, log := kernel, database, Accepting, [];
    }

    method IpcReceive(ghost clients: map<int, ClientState>) returns (sender: int, request: Request)
      requires Valid() && pc.Serving? && queues.toServer != []
      modifies this`pc, queues`toServer
      ensures Valid() && pc == Executing(sender, request) && log == old(log)
      ensures |queues.toServer| < |old(queues.toServer)|
      ensures Next(old(View(clients)), ServerMoves) == Some(View(clients))
    {
      var m := queues.toServer[0];
      queues.toServer := queues.toServer[1..];
      sender, request := m.mtype, m.body.request;
      pc := Executing(sender, request);
    }

    /** false when the first message is not a connection: the process ends. */
    method IpcAccept(ghost clients: map<int, ClientState>) returns (accepted: bool)
      requires Valid() && pc.Accepting? && queues.toServer != []
      modifies this`pc, queues`toServer
      ensures Valid() && accepted == (old(queues.toServer)[0].body == Ask(Connect))
      ensures accepted ==> pc == Serving
      ensures Next(old(View(clients)), ServerMoves) == Some(View(clients))
    {
      var m := queues.toServer[0];
      queues.toServer := queues.toServer[1..];
      accepted := m.body == Ask(Connect);
      pc := if accepted then Serving else Stopped(m.mtype, m.body.request);
    }

    /** The answer's type is the pid that the request came with. */
    method IpcSend(sender: int, ans: Reply, ghost clients: map<int, ClientState>)
      requires Valid() && pc == Sending(sender, ans)
      modifies this`pc, queues`toClients
      ensures Valid() && pc == Serving && log == old(log)
      ensures Next(old(View(clients)), ServerMoves) == Some(View(clients))
    {
      queues.toClients := queues.toClients + [Msg(sender, Answer(ans))];
      pc := Serving;
    }

    /** execute_datagram, and its answer to the sender when there is one. */
    method ExecuteAndAnswer(sender: int, request: Request, ghost clients: map<int, ClientState>) returns (ghost n: nat)
      requires Valid() && pc == Executing(sender, request) && !request.Exit?
      modifies this`pc, this`log, queues`toClients, db
      ensures Valid() && pc == Serving
      ensures Reaches(old(View(clients)), Moves(n), View(clients))
    {
      ghost var v1 := View(clients);
      var ans := ExecuteDatagram(db, request);
      if ans == None {
        pc, n := Serving, 1;
        OneMove(v1, View(clients));
        return;
      }
      pc, log := Sending(sender, ans.value), log + [Entry(sender, request, ans.value)];
      ghost var v2 := View(clients);
      OneMove(v1, v2);
      IpcSend(sender, ans.value, clients);
      OneMove(v2, View(clients));
      ReachesConcat(v1, 1, v2, 1, View(clients));
      n := 2;
    }

    /** One round of serve: receive, execute, answer. */
    method ServeOne(ghost clients: map<int, ClientState>) returns (exited: bool, ghost n: nat)
      requires Valid() && pc.Serving? && queues.toServer != []
      modifies this`pc, this`log, queues, db
      ensures Valid() && if exited then pc.Stopped? else pc.Serving?
      ensures |queues.toServer| < |old(queues.toServer)|
      ensures Reaches(old(View(clients)), Moves(n), View(clients))
    {
      ghost var v0 := View(clients);
      var sender, request := IpcReceive(clients);
      ghost var v1 := View(clients);
      OneMove(v0, v1);
      exited := request.Exit?;
      if exited {
        pc, n := Stopped(sender, request), 1;
        OneMove(v1, View(clients));
      } else {
        n := ExecuteAndAnswer(sender, request, clients);
      }
      ReachesConcat(v0, 1, v1, n, View(clients));
      n := n + 1;
    }

    /** The serve loop, until it would block or an exit arrives: a run of the state machine,
        whatever clients there are. */
    method Serve(ghost clients: map<int, ClientState>) returns (exited: bool, ghost n: nat)
      requires Valid() && pc.Serving?
      modifies this`pc, this`log, queues, db
      ensures Valid() && if exited then pc.Stopped? else pc.Serving? && queues.toServer == []
      ensures Reaches(old(View(clients)), Moves(n), View(clients))
    {
      n, exited := 0, false;
      assert Moves(0) == [];
      while !exited && queues.toServer != []
        invariant Valid() && if exited then pc.Stopped? else pc.Serving?
        invariant Reaches(old(View(clients)), Moves(n), View(clients))
        decreases |queues.toServer|
      {
        ghost var v := View(clients);
        ghost var k: nat;
        exited, k := ServeOne(clients);
        ReachesConcat(old(View(clients)), n, v, k, View(clients));
        n := n + k;
      }
    }
  }

  class ClientSession {
    const queues: Kernel
    const pid: int
    ghost var me: Option<ClientState>  // None before ipc_connect

    /** The state machine's state; `rest` stands for the server and the other clients. */
    ghost function View(rest: State): State
      reads this, queues
    {
      rest.(toServer := queues.toServer, toClients := queues.toClients,
            clients := if me == None then rest.clients - {pid} else rest.clients[pid := me.value])
    }

    constructor (kernel: Kernel, p: int)
      ensures queues == kernel && pid == p && me == None
    {
      queues, pid, me := kernel, p, None;
    }

    method IpcConnect(ghost rest: State)
      requires me == None && pid > 0 && !rest.server.Stopped?
      modifies this`me, queues`toServer
      ensures me == Some(ClientState(Idle, [], [], 0))
      ensures Next(old(View(rest)), Connects(pid)) == Some(View(rest))
    {
      ghost var before := View(rest);
      queues.toServer := queues.toServer + [Msg(pid, Ask(Connect))];
      me := Some(ClientState(Idle, [], [], 0));
      assert before.clients[pid := me.value] == View(rest).clients;
    }

    /** Any request is queued; one within the limit, as the machine queues it. */
    method IpcSend(request: Request, ghost rest: State)
      requires me.Some? && me.value.pc == Idle && !request.Connect? && !rest.server.Stopped?
      modifies this`me, queues`toServer
      ensures queues.toServer == old(queues.toServer) + [Msg(pid, Ask(request))]
      ensures me.Some? && me.value.pc == if request.Exit? then Gone else Waiting
      ensures Fits(MessageQueue, Ask(request)) ==> Next(old(View(rest)), Sends(pid, request)) == Some(View(rest))
    {
      ghost var before := View(rest);
      queues.toServer := queues.toServer + [Msg(pid, Ask(request))];
      me := Some(ClientState(if request.Exit? then Gone else Waiting, me.value.sent + [request], me.value.got, |rest.log|));
      assert before.clients[pid := me.value] == View(rest).clients;
    }

    /** Takes this client's first answer, and no other message, out of the queue. None is the
        failure that the code does not notice: the answer is above the limit and stays. */
    method IpcReceive(ghost rest: State) returns (answer: Option<Datagram>)
      requires me.Some? && me.value.pc == Waiting && !rest.server.Stopped?
      requires FirstFor(queues.toClients, pid) < |queues.toClients|
      requires queues.toClients[FirstFor(queues.toClients, pid)].body.Answer?
      modifies this`me, queues`toClients
      ensures Next(old(View(rest)), Receives(pid)) == if answer == None then None else Some(View(rest))
      ensures answer == None ==> View(rest) == old(View(rest))
      ensures answer.Some? ==> me.Some? && answer.value.Answer? && me.value.got == old(me.value.got) + [answer.value.reply]
    {
      ghost var before := View(rest);
      var m := queues.ReceiveFor(pid);
      if m == None {
        return None;
      }
      answer := Some(m.value.body);
      me := Some(me.value.(pc := Idle, got := me.value.got + [m.value.body.reply]));
      assert before.clients[pid := me.value] == View(rest).clients;
    }
  }
}
