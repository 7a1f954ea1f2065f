/** Admission to the shared-memory server, in every run: processes may end at any point, and
    nothing is assumed about how clients interleave. */
module Admission {
  import opened Types
  import opened Semaphores
  import opened FiniteSets
  import opened Rendezvous

  // ---- SEM_QUEUE ----

  ghost function InsideSet(s: State): set<nat> {
    set i | i in s.clients && Inside(s, i)
  }

  /** Clients that completed their connection and then ended. */
  ghost function LeftSet(s: State): set<nat> {
    set i | i in s.clients && s.clients[i].pc == Gone(true)
  }

  /** What is owed to the kernel for SEM_QUEUE: one down per client that entered and lives. */
  ghost predicate QueueDebts(s: State) {
    forall p :: s.queue.undo[p] ==
      if p.Client? && p.n in s.clients && 2 <= ClientPos(s.clients[p.n].pc) <= 14 then 1 else 0
  }

  ghost predicate QueueAccounted(s: State) {
    && QueueDebts(s)
    && s.queue.val + |InsideSet(s)| == 1 + |LeftSet(s)|
  }

  ghost predicate OnlyClientChanged(s: State, t: State, n: nat) {
    forall i :: i != n ==>
      && (i in s.clients <==> i in t.clients)
      && (i in s.clients ==> s.clients[i] == t.clients[i])
  }

  lemma CountsFollow(s: State, t: State, n: nat)
    requires OnlyClientChanged(s, t, n)
    ensures |InsideSet(t)| - (if Inside(t, n) then 1 else 0) == |InsideSet(s)| - (if Inside(s, n) then 1 else 0)
    ensures |LeftSet(t)| - (if n in LeftSet(t) then 1 else 0) == |LeftSet(s)| - (if n in LeftSet(s) then 1 else 0)
  {
    SizesDiffer(InsideSet(s), InsideSet(t), n);
    SizesDiffer(LeftSet(s), LeftSet(t), n);
  }

  lemma ChildStepOnQueue(s: State, n: nat)
    requires n in s.children && ChildNext(s, n).Some? && s.queue.undo[Child(n)] == 0
    ensures ChildNext(s, n).value.clients == s.clients && ChildNext(s, n).value.queue == s.queue
  {
    assert s.queue.undo[Child(n) := 0] == s.queue.undo;
  }

  /** How one step of client `n` moves it: forward by one position, or to its end. SEM_QUEUE
      is touched at the entry, at the release and by the end of the process only. */
  ghost predicate ClientMoved(s: State, t: State, n: nat) {
    && n in s.clients && n in t.clients && OnlyClientChanged(s, t, n)
    && var pos := ClientPos(s.clients[n].pc);
       if t.clients[n].pc.Gone? then
         t.clients[n].pc.connected == (pos == 14) && pos < 15 && t.queue == Exited(s.queue, Client(n))
       else
         && ClientPos(t.clients[n].pc) == pos + 1
         && if pos == 1 then s.queue.val > 0 && t.queue == Down(s.queue, Client(n))
            else t.queue == if pos == 13 then Up(s.queue) else s.queue
  }

  lemma EarlyClientMoved(s: State, n: nat)
    requires n in s.clients && ClientPos(s.clients[n].pc) <= 5 && ClientNext(s, n).Some?
    ensures ClientMoved(s, ClientNext(s, n).value, n)
  {}

  lemma MiddleClientMoved(s: State, n: nat)
    requires n in s.clients && 6 <= ClientPos(s.clients[n].pc) <= 8 && ClientNext(s, n).Some?
    ensures ClientMoved(s, ClientNext(s, n).value, n)
  {}

  lemma AttachingClientMoved(s: State, n: nat)
    requires n in s.clients && 9 <= ClientPos(s.clients[n].pc) <= 10 && ClientNext(s, n).Some?
    ensures ClientMoved(s, ClientNext(s, n).value, n)
  {}

  lemma LateClientMoved(s: State, n: nat)
    requires n in s.clients && ClientPos(s.clients[n].pc) > 10 && ClientNext(s, n).Some?
    ensures ClientMoved(s, ClientNext(s, n).value, n)
  {}

  lemma ClientStepMoves(s: State, n: nat)
    requires n in s.clients && ClientNext(s, n).Some?
    ensures ClientMoved(s, ClientNext(s, n).value, n)
  {
    var pos := ClientPos(s.clients[n].pc);
    if pos <= 5 {
      EarlyClientMoved(s, n);
    } else if pos <= 8 {
      MiddleClientMoved(s, n);
    } else if pos <= 10 {
      AttachingClientMoved(s, n);
    } else {
      LateClientMoved(s, n);
    }
  }

  lemma QueueAccountedUnchanged(s: State, t: State)
    requires QueueAccounted(s) && t.clients == s.clients && t.queue == s.queue
    ensures QueueAccounted(t)
  {
    assert InsideSet(t) == InsideSet(s) && LeftSet(t) == LeftSet(s);
  }

  lemma QueueAccountedClient(s: State, t: State, n: nat)
    requires QueueAccounted(s) && ClientMoved(s, t, n)
    ensures QueueAccounted(t)
  {
    CountsFollow(s, t, n);
    assert s.queue.undo[Client(n)] == if 2 <= ClientPos(s.clients[n].pc) <= 14 then 1 else 0;
    forall p ensures t.queue.undo[p] ==
      if p.Client? && p.n in t.clients && 2 <= ClientPos(t.clients[p.n].pc) <= 14 then 1 else 0
    {
      assert p != Client(n) ==> t.queue.undo[p] == s.queue.undo[p];
    }
  }

  lemma QueueAccountedArrival(s: State, t: State, n: nat)
    requires QueueAccounted(s) && Next(s, Arrive(n)) == Some(t)
    ensures QueueAccounted(t)
  {
    CountsFollow(s, t, n);
  }

  lemma QueueAccountedChild(s: State, t: State, n: nat)
    requires QueueAccounted(s) && (Next(s, ChildMoves(n)) == Some(t) || Next(s, ChildExits(n)) == Some(t))
    ensures QueueAccounted(t)
  {
    assert s.queue.undo[Child(n)] == 0;
    assert s.queue.undo[Child(n) := 0] == s.queue.undo;
    if Next(s, ChildMoves(n)) == Some(t) { ChildStepOnQueue(s, n); }
    QueueAccountedUnchanged(s, t);
  }

  lemma ClientEndMoves(s: State, n: nat)
    requires Next(s, ClientExits(n)).Some?
    ensures ClientMoved(s, Next(s, ClientExits(n)).value, n)
  {}

  lemma QueueAccountedStep(s: State, step: Step)
    requires QueueAccounted(s) && Next(s, step).Some?
    ensures QueueAccounted(Next(s, step).value)
  {
    var t := Next(s, step).value;
    match step
    case Arrive(n) => QueueAccountedArrival(s, t, n);
    case ParentMoves => QueueAccountedUnchanged(s, t);
    case ChildMoves(n) => QueueAccountedChild(s, t, n);
    case ChildExits(n) => QueueAccountedChild(s, t, n);
    case ClientMoves(n) =>
      ClientStepMoves(s, n);
      QueueAccountedClient(s, t, n);
    case ClientExits(n) =>
      ClientEndMoves(s, n);
      QueueAccountedClient(s, t, n);
  }

  lemma {:induction false} QueueAccountedRun(s0: State, steps: seq<Step>, s: State)
    requires QueueAccounted(s0) && Reaches(s0, steps, s)
    ensures QueueAccounted(s)
    decreases |steps|
  {
    if steps != [] {
      QueueAccountedStep(s0, steps[0]);
      QueueAccountedRun(Next(s0, steps[0]).value, steps[1..], s);
    }
  }

  /** In every run: the counter plus the clients between entry and release is one more than
      the number of clients that ended after connecting. So while no connected client has
      ended, one client at a time is in the handshake. */
  lemma QueueAccounting(s0: State, steps: seq<Step>, s: State)
    requires Init(s0) && Reaches(s0, steps, s)
    ensures s.queue.val + |InsideSet(s)| == 1 + |LeftSet(s)|
    ensures LeftSet(s) == {} ==> forall i, j :: Inside(s, i) && Inside(s, j) ==> i == j
  {
    assert InsideSet(s0) == {} && LeftSet(s0) == {};
    QueueAccountedRun(s0, steps, s);
    forall i, j | LeftSet(s) == {} && Inside(s, i) && Inside(s, j) ensures i == j {
      assert {i, j} <= InsideSet(s);
      SubsetSize({i, j}, InsideSet(s));
    }
  }

  /** So whenever nobody is in the handshake, the queue lets a client in. */
  lemma EmptyQueueIsOpen(s0: State, steps: seq<Step>, s: State, n: nat)
    requires Init(s0) && Reaches(s0, steps, s) && (forall i :: !Inside(s, i))
    requires n in s.clients && s.clients[n].pc == EnterQueue
    ensures Next(s, ClientMoves(n)).Some? && Inside(Next(s, ClientMoves(n)).value, n)
  {
    QueueAccounting(s0, steps, s);
    assert InsideSet(s) == {};
  }

  // ---- SEM_SRV_QUEUE ----

  /** Forked and not past the end of ipc_sync; a child that died on the way stays here. */
  ghost predicate Unsynced(s: State, k: nat) {
    k in s.children && (ChildPos(s.children[k].pc) <= 11 || s.children[k].pc == Dead(false))
  }

  ghost function UnsyncedSet(s: State): set<nat> {
    set k | k in s.children && Unsynced(s, k)
  }

  ghost predicate SyncAccounted(s: State) {
    && (forall k :: k in s.children <==> 1 <= k <= s.cliCount)
    && (forall p :: p != Parent ==> s.srvQueue.undo[p] == 0)
    && s.srvQueue.val + |UnsyncedSet(s)| == if s.parent == AwaitSync then 1 else 0
  }

  /** How one step of child `n` moves it. */
  ghost predicate ChildMoved(s: State, t: State, n: nat) {
    && n in s.children && t.children.Keys == s.children.Keys
    && (forall k :: k in s.children && k != n ==> t.children[k] == s.children[k])
    && t.parent == s.parent && t.cliCount == s.cliCount
    && var pos := ChildPos(s.children[n].pc);
       if t.children[n].pc.Dead? then
         t.children[n].pc.synced == (pos == 12) && pos < 13 && t.srvQueue == Exited(s.srvQueue, Child(n))
       else
         ChildPos(t.children[n].pc) == pos + 1 && t.srvQueue == if pos == 11 then Up(s.srvQueue) else s.srvQueue
  }

  lemma EarlyChildStep(s: State, n: nat)
    requires n in s.children && ChildPos(s.children[n].pc) <= 5 && ChildNext(s, n).Some?
    ensures ChildMoved(s, ChildNext(s, n).value, n)
  {}

  lemma LateChildStep(s: State, n: nat)
    requires n in s.children && ChildPos(s.children[n].pc) > 5 && ChildNext(s, n).Some?
    ensures ChildMoved(s, ChildNext(s, n).value, n)
  {}

  lemma SyncAccountedChild(s: State, t: State, n: nat)
    requires SyncAccounted(s) && ChildMoved(s, t, n)
    ensures SyncAccounted(t)
  {
    assert forall k :: k in t.children <==> k in s.children;
    SizesDiffer(UnsyncedSet(s), UnsyncedSet(t), n);
    assert s.srvQueue.undo[Child(n)] == 0;
  }

  lemma SyncAccountedClient(s: State, t: State, n: nat)
    requires SyncAccounted(s)
    requires t.children == s.children && t.parent == s.parent && t.cliCount == s.cliCount
    requires t.srvQueue == s.srvQueue || t.srvQueue == Exited(s.srvQueue, Client(n))
    ensures SyncAccounted(t)
  {
    assert UnsyncedSet(t) == UnsyncedSet(s);
  }

  lemma EarlyClientStepOnSync(s: State, n: nat)
    requires n in s.clients && ClientPos(s.clients[n].pc) <= 8 && ClientNext(s, n).Some?
    ensures var t := ClientNext(s, n).value;
            t.children == s.children && t.parent == s.parent && t.cliCount == s.cliCount && t.srvQueue == s.srvQueue
  {}

  lemma LateClientStepOnSync(s: State, n: nat)
    requires n in s.clients && ClientPos(s.clients[n].pc) > 8 && ClientNext(s, n).Some?
    ensures var t := ClientNext(s, n).value;
            && t.children == s.children && t.parent == s.parent && t.cliCount == s.cliCount
            && (t.srvQueue == s.srvQueue || t.srvQueue == Exited(s.srvQueue, Client(n)))
  {}

  lemma SyncAccountedParent(s: State)
    requires SyncAccounted(s) && ParentNext(s).Some?
    ensures SyncAccounted(ParentNext(s).value)
  {
    var t := ParentNext(s).value;
    if s.parent == Fork {
      var n := s.cliCount + 1;
      assert n !in s.children;
      SizesDiffer(UnsyncedSet(s), UnsyncedSet(t), n);
    } else {
      assert UnsyncedSet(t) == UnsyncedSet(s);
    }
  }

  lemma SyncAccountedStep(s: State, step: Step)
    requires SyncAccounted(s) && Next(s, step).Some?
    ensures SyncAccounted(Next(s, step).value)
  {
    var t := Next(s, step).value;
    match step
    case Arrive(n) => SyncAccountedClient(s, t, n);
    case ParentMoves => SyncAccountedParent(s);
    case ChildMoves(n) =>
      if ChildPos(s.children[n].pc) <= 5 { EarlyChildStep(s, n); } else { LateChildStep(s, n); }
      SyncAccountedChild(s, t, n);
    case ClientMoves(n) =>
      if ClientPos(s.clients[n].pc) <= 8 { EarlyClientStepOnSync(s, n); } else { LateClientStepOnSync(s, n); }
      SyncAccountedClient(s, t, n);
    case ChildExits(n) => SyncAccountedChild(s, t, n);
    case ClientExits(n) => SyncAccountedClient(s, t, n);
  }

  lemma {:induction false} SyncAccountedRun(s0: State, steps: seq<Step>, s: State)
    requires SyncAccounted(s0) && Reaches(s0, steps, s)
    ensures SyncAccounted(s)
    decreases |steps|
  {
    if steps != [] {
      SyncAccountedStep(s0, steps[0]);
      SyncAccountedRun(Next(s0, steps[0]).value, steps[1..], s);
    }
  }

  /** In every run at most one child is between its fork and the end of its ipc_sync, and the
      parent is between fork and the end of ipc_waitsync exactly while such a child exists or
      its release is still to be picked up. */
  lemma OneUnsyncedChild(s0: State, steps: seq<Step>, s: State)
    requires Init(s0) && Reaches(s0, steps, s)
    ensures s.srvQueue.val + |UnsyncedSet(s)| == if s.parent == AwaitSync then 1 else 0
    ensures forall k, l :: Unsynced(s, k) && Unsynced(s, l) ==> k == l
  {
    assert UnsyncedSet(s0) == {};
    SyncAccountedRun(s0, steps, s);
    forall k, l | Unsynced(s, k) && Unsynced(s, l) ensures k == l {
      SubsetSize({k, l}, UnsyncedSet(s));
    }
  }

  /** A child that dies during its handshake stops the server for good: from then on the
      parent is in ipc_waitsync and its down never returns. */
  lemma DeadChildStallsServer(s0: State, steps: seq<Step>, s: State, k: nat)
    requires Init(s0) && Reaches(s0, steps, s)
    requires k in s.children && s.children[k].pc == Dead(false)
    ensures s.parent == AwaitSync && Next(s, ParentMoves) == None
  {
    OneUnsyncedChild(s0, steps, s);
    assert k in UnsyncedSet(s);
    SubsetSize({k}, UnsyncedSet(s));
  }
}
