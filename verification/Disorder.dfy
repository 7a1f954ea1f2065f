/** What happens without the assumptions of Handshake.dfy. Each result starts from a state that
    an orderly run can reach and lets one process take one step the assumptions forbid. Where no
    connected client has ended yet, and nobody ends later, the client being connected can then
    never be connected, whatever else anybody does, orderly or not. */
module Disorder {
  import opened Types
  import opened Semaphores
  import opened Runs
  import opened FiniteSets
  import opened Rendezvous
  import opened Effects
  import opened Admission
  import opened Handshake

  // ---- any steps but ends ----

  function QuietNext(s: State, step: Step): Option<State> {
    if step.ChildExits? || step.ClientExits? then None else Next(s, step)
  }

  ghost predicate QuietRun(s0: State, steps: seq<Step>, s: State) {
    IsRun(QuietNext, s0, steps, s)
  }

  /** The queue is intact: it lets one client in at a time. */
  ghost predicate Exclusive(s: State) {
    QueueAccounted(s) && LeftSet(s) == {}
  }

  lemma OneInside(s: State, i: nat, j: nat)
    requires Exclusive(s) && Inside(s, i)
    ensures s.queue.val == 0 && (Inside(s, j) ==> i == j)
  {
    SubsetSize({i}, InsideSet(s));
    if Inside(s, j) { SubsetSize({i, j}, InsideSet(s)); }
  }

  lemma NobodyLeaves(s: State, step: Step)
    requires QuietNext(s, step).Some?
    ensures LeftSet(QuietNext(s, step).value) <= LeftSet(s)
  {
    match step
    case Arrive(n) =>
    case ParentMoves =>
    case ChildMoves(n) => ChildLeavesClients(s, n);
    case ClientMoves(n) => ClientStepMoves(s, n);
  }

  lemma QuietStepKeepsExclusive(s: State, step: Step)
    requires Exclusive(s) && QuietNext(s, step).Some?
    ensures Exclusive(QuietNext(s, step).value)
  {
    assert QueueAccounted(Next(s, step).value) by { QueueAccountedStep(s, step); }
    NobodyLeaves(s, step);
  }

  lemma ChildLeavesClients(s: State, k: nat)
    requires k in s.children && ChildNext(s, k).Some?
    ensures ChildNext(s, k).value.clients == s.clients
  {}

  lemma OrderlyRunFacts(s0: State, before: seq<Step>, s: State)
    requires Init(s0) && OrderlyRun(s0, before, s) && LeftSet(s) == {}
    ensures Inv(s) && Exclusive(s)
  {
    InitInv(s0);
    RunKeepsInv(s0, before, s);
    OrderlyRunReaches(s0, before, s);
    assert InsideSet(s0) == {} && LeftSet(s0) == {};
    QueueAccountedRun(s0, before, s);
  }

  /** While client `a` is in the handshake, others can only attach. */
  lemma OutsidersAttach(s: State, i: nat, a: nat)
    requires Exclusive(s) && Inside(s, a) && i != a && i in s.clients && ClientNext(s, i).Some?
    ensures s.clients[i].pc == Attach
  {
    OneInside(s, a, i);
  }

  // ---- attaching while a request is pending: the attach zeroes OP_CONNECT ----

  /** Children lower SEM_CLIENT only, so their end changes no other semaphore. */
  ghost predicate NoChildDebts(s: State) {
    forall k :: s.semServer.undo[Child(k)] == 0 && s.srvQueue.undo[Child(k)] == 0
  }

  /** The request of client `a` was erased before the child's check. */
  ghost predicate RequestLost(s: State, a: nat) {
    && ChildrenInv(s) && RoundInv(s) && NoChildDebts(s)
    && s.round == Some(a) && RequestPending(s) && RoundPos(s) <= 6 && s.page.opcode != OP_CONNECT
  }

  /** The child has taken its error exit; nobody is left who could raise SEM_SERVER. */
  ghost predicate ChildLost(s: State, a: nat) {
    && s.parent == AwaitSync && s.srvQueue.val == 0 && s.semServer.val == 0
    && s.round == Some(a) && a in s.clients && 3 <= ClientPos(s.clients[a].pc) <= 6
    && (forall k :: k in s.children ==> s.children[k].pc == Serving || s.children[k].pc.Dead?)
  }

  lemma RequestLostParentStep(s: State, t: State, a: nat)
    requires RequestLost(s, a) && ParentEffect(s, t)
    ensures RequestLost(t, a)
  {
    ParentKeepsChildren(s, t);
    ParentKeepsRound(s, t);
  }

  lemma RequestStaysLost(s: State, t: State, a: nat)
    requires RequestLost(s, a) && Syncing(s) && SyncPos(s) == 0 && ChildEffect(s, t, s.cliCount)
    ensures RequestLost(t, a)
  {
    ChildKeepsChildren(s, t);
    ChildKeepsRound(s, t);
  }

  lemma CheckFails(s: State, a: nat)
    requires RequestLost(s, a) && Syncing(s) && s.children[s.cliCount].pc == CheckOpcode
    ensures ChildNext(s, s.cliCount).Some? && ChildLost(ChildNext(s, s.cliCount).value, a)
  {}

  lemma RequestLostChildStep(s: State, n: nat, a: nat)
    requires RequestLost(s, a) && n in s.children && ChildNext(s, n).Some?
    ensures RequestLost(ChildNext(s, n).value, a) || ChildLost(ChildNext(s, n).value, a)
  {
    assert n == s.cliCount && Syncing(s) && SyncPos(s) <= 1;
    if SyncPos(s) == 0 {
      EarlyChildEffect(s, n);
      RequestStaysLost(s, ChildNext(s, n).value, a);
    } else {
      CheckFails(s, a);
    }
  }

  lemma RequestLostClientEffect(s: State, t: State, n: nat, a: nat)
    requires RequestLost(s, a) && ClientEffect(s, t, n) && (if n == a then s.clients[n].pc == Step1 else s.clients[n].pc == Attach)
    ensures RequestLost(t, a)
  {
    ClientKeepsRound(s, t, n);
  }

  lemma RequestLostClientStep(s: State, n: nat, a: nat)
    requires RequestLost(s, a) && Exclusive(s) && n in s.clients && ClientNext(s, n).Some?
    ensures RequestLost(ClientNext(s, n).value, a)
  {
    assert n != a ==> s.clients[n].pc == Attach by {
      assert Inside(s, a);
      if n != a { OutsidersAttach(s, n, a); }
    }
    if n == a { MiddleClientEffect(s, n); } else { EarlyClientEffect(s, n); }
    RequestLostClientEffect(s, ClientNext(s, n).value, n, a);
  }

  lemma RequestLostArrival(s: State, t: State, n: nat, a: nat)
    requires RequestLost(s, a) && Arrived(s, t, n)
    ensures RequestLost(t, a)
  {}

  lemma RequestLostStep(s: State, step: Step, a: nat)
    requires RequestLost(s, a) && Exclusive(s) && QuietNext(s, step).Some?
    ensures RequestLost(QuietNext(s, step).value, a) || ChildLost(QuietNext(s, step).value, a)
  {
    match step
    case Arrive(n) => RequestLostArrival(s, Next(s, step).value, n, a);
    case ParentMoves =>
      ParentTakesEffect(s);
      RequestLostParentStep(s, Next(s, step).value, a);
    case ChildMoves(n) => RequestLostChildStep(s, n, a);
    case ClientMoves(n) => RequestLostClientStep(s, n, a);
  }

  lemma ChildLostClientStep(s: State, n: nat, a: nat)
    requires ChildLost(s, a) && Exclusive(s) && n in s.clients && ClientNext(s, n).Some?
    ensures ChildLost(ClientNext(s, n).value, a)
  {
    assert Inside(s, a);
    if n != a { OutsidersAttach(s, n, a); }
    if ClientPos(s.clients[n].pc) <= 4 { EarlyClientEffect(s, n); } else { MiddleClientEffect(s, n); }
  }

  lemma ChildLostStep(s: State, step: Step, a: nat)
    requires ChildLost(s, a) && Exclusive(s) && QuietNext(s, step).Some?
    ensures ChildLost(QuietNext(s, step).value, a)
  {
    if step.ClientMoves? {
      ChildLostClientStep(s, step.n, a);
    }
  }

  lemma {:induction false} DoomedRun(s0: State, steps: seq<Step>, s: State, a: nat)
    requires (RequestLost(s0, a) || ChildLost(s0, a)) && Exclusive(s0) && QuietRun(s0, steps, s)
    ensures (RequestLost(s, a) || ChildLost(s, a)) && Exclusive(s)
    decreases |steps|
  {
    if steps != [] {
      if RequestLost(s0, a) { RequestLostStep(s0, steps[0], a); } else { ChildLostStep(s0, steps[0], a); }
      QuietStepKeepsExclusive(s0, steps[0]);
      DoomedRun(QuietNext(s0, steps[0]).value, steps[1..], s, a);
    }
  }

  lemma AttachLosesRequest(s: State, t: State, n: nat, a: nat)
    requires ChildrenInv(s) && RoundInv(s) && DebtInv(s) && s.round == Some(a) && RequestPending(s)
    requires ClientEffect(s, t, n) && s.clients[n].pc == Attach
    ensures RequestLost(t, a)
  {
    ClientKeepsRound(s, t, n);
  }

  lemma LosesRequest(s: State, u: State, n: nat, a: nat)
    requires ChildrenInv(s) && RoundInv(s) && DebtInv(s) && s.round == Some(a) && RequestPending(s)
    requires n in s.clients && s.clients[n].pc == Attach && ClientNext(s, n) == Some(u)
    ensures RequestLost(u, a)
  {
    EarlyClientEffect(s, n);
    AttachLosesRequest(s, u, n, a);
  }

  /** Client `n` attaches while the request of client `a` is unread. From then on, whatever
      happens, `a` never gets past its wait for STEP-2, and no other client gets into the
      handshake. */
  lemma AttachDuringRequestIsFatal(s0: State, before: seq<Step>, s: State, n: nat, a: nat, later: seq<Step>, t: State)
    requires Init(s0) && OrderlyRun(s0, before, s) && LeftSet(s) == {}
    requires n in s.clients && s.clients[n].pc == Attach && s.round == Some(a) && RequestPending(s)
    requires QuietRun(Next(s, ClientMoves(n)).value, later, t)
    ensures a in t.clients && 3 <= ClientPos(t.clients[a].pc) <= 6
    ensures forall i :: Inside(t, i) ==> i == a
  {
    var u := Next(s, ClientMoves(n)).value;
    assert RequestLost(u, a) && Exclusive(u) by {
      OrderlyRunFacts(s0, before, s);
      LosesRequest(s, u, n, a);
      QuietStepKeepsExclusive(s, ClientMoves(n));
    }
    DoomedRun(u, later, t, a);
    StuckAlone(t, a);
  }

  lemma StuckAlone(t: State, a: nat)
    requires (RequestLost(t, a) || ChildLost(t, a)) && Exclusive(t)
    ensures a in t.clients && 3 <= ClientPos(t.clients[a].pc) <= 6
    ensures forall i :: Inside(t, i) ==> i == a
  {
    forall i | Inside(t, i) ensures i == a {
      OneInside(t, a, i);
    }
  }

  // ---- attaching while a key is pending: the attach zeroes the key ----

  /** The key was erased before client `a` read it. */
  ghost predicate KeyLost(s: State, a: nat) {
    && RoundInv(s) && NoChildDebts(s)
    && s.round == Some(a) && Syncing(s) && 3 <= SyncPos(s) <= 10 && RoundPos(s) <= 7
    && s.page.key == None && s.srvQueue.val == 0
    && (forall k :: k in s.children && k != s.cliCount ==> s.children[k].pc == Serving || s.children[k].pc.Dead?)
  }

  /** Client `a` has been through STEP-2 without a key. */
  ghost predicate Keyless(s: State, a: nat) {
    a in s.clients && ClientPos(s.clients[a].pc) >= 8 && s.clients[a].key == None
  }

  ghost predicate NeverKeyed(s: State, a: nat) {
    Keyless(s, a) || (Exclusive(s) && (KeyLost(s, a) || ChildLost(s, a)))
  }

  /** The current child moves on, with or without a key. */
  ghost predicate ChildMovesOn(s: State, t: State) {
    && Syncing(s) && 3 <= SyncPos(s) <= 9 && t.children.Keys == s.children.Keys
    && (forall k :: k in s.children && k != s.cliCount ==> t.children[k] == s.children[k])
    && ChildPos(t.children[s.cliCount].pc) == SyncPos(s) + 1
    && t.semClient == s.semClient && t.queue == s.queue && t.srvQueue == s.srvQueue
    && t.semServer == (if SyncPos(s) == 9 then Up(s.semServer) else s.semServer)
    && t.page == s.page && t.clients == s.clients
    && t.parent == s.parent && t.cliCount == s.cliCount && t.round == s.round
  }

  /** ... or finds its key taken and leaves. */
  ghost predicate ChildLeaves(s: State, t: State) {
    && Syncing(s) && s.children[s.cliCount].pc == CreateSegment
    && t.children == s.children[s.cliCount := s.children[s.cliCount].(pc := Dead(false))]
    && t.semServer == Exited(s.semServer, Child(s.cliCount)) && t.srvQueue == Exited(s.srvQueue, Child(s.cliCount))
    && t.clients == s.clients && t.parent == s.parent && t.cliCount == s.cliCount && t.round == s.round
  }

  lemma EarlyChildMovesOn(s: State)
    requires Syncing(s) && 3 <= SyncPos(s) <= 6 && ChildNext(s, s.cliCount).Some?
    ensures var t := ChildNext(s, s.cliCount).value; ChildMovesOn(s, t) || ChildLeaves(s, t)
  {}

  lemma LateChildMovesOn(s: State)
    requires Syncing(s) && 7 <= SyncPos(s) <= 9 && ChildNext(s, s.cliCount).Some?
    ensures ChildMovesOn(s, ChildNext(s, s.cliCount).value)
  {}

  lemma KeyLostChildStep(s: State, k: nat, a: nat)
    requires KeyLost(s, a) && k in s.children && ChildNext(s, k).Some?
    ensures KeyLost(ChildNext(s, k).value, a) || ChildLost(ChildNext(s, k).value, a)
  {
    assert k == s.cliCount && SyncPos(s) <= 9;
    if SyncPos(s) <= 6 { EarlyChildMovesOn(s); } else { LateChildMovesOn(s); }
  }

  lemma KeyLostClientStep(s: State, n: nat, a: nat)
    requires KeyLost(s, a) && Exclusive(s) && n in s.clients && ClientNext(s, n).Some?
    ensures KeyLost(ClientNext(s, n).value, a) || Keyless(ClientNext(s, n).value, a)
  {
    assert Inside(s, a);
    if n != a { OutsidersAttach(s, n, a); }
    if ClientPos(s.clients[n].pc) <= 4 { EarlyClientEffect(s, n); } else { MiddleClientEffect(s, n); }
    ClientKeepsRound(s, ClientNext(s, n).value, n);
  }

  lemma KeyLostStep(s: State, step: Step, a: nat)
    requires KeyLost(s, a) && Exclusive(s) && QuietNext(s, step).Some?
    ensures NeverKeyed(QuietNext(s, step).value, a)
  {
    QuietStepKeepsExclusive(s, step);
    match step
    case Arrive(n) => assert KeyLost(QuietNext(s, step).value, a);
    case ParentMoves => assert false;
    case ChildMoves(k) => KeyLostChildStep(s, k, a);
    case ClientMoves(n) => KeyLostClientStep(s, n, a);
  }

  /** Only ReadKey changes a key. */
  ghost predicate OthersKept(s: State, t: State, n: nat) {
    && n in s.clients && n in t.clients
    && (forall i :: i in s.clients && i != n ==> i in t.clients && t.clients[i] == s.clients[i])
    && ClientPos(t.clients[n].pc) > ClientPos(s.clients[n].pc)
    && (s.clients[n].pc != ReadKey ==> t.clients[n].key == s.clients[n].key)
  }

  lemma EarlyClientLeavesOthers(s: State, n: nat)
    requires n in s.clients && ClientPos(s.clients[n].pc) <= 8 && ClientNext(s, n).Some?
    ensures OthersKept(s, ClientNext(s, n).value, n)
  {}

  lemma MiddleClientLeavesOthers(s: State, n: nat)
    requires n in s.clients && 9 <= ClientPos(s.clients[n].pc) <= 10 && ClientNext(s, n).Some?
    ensures OthersKept(s, ClientNext(s, n).value, n)
  {}

  lemma LateClientLeavesOthers(s: State, n: nat)
    requires n in s.clients && ClientPos(s.clients[n].pc) > 10 && ClientNext(s, n).Some?
    ensures OthersKept(s, ClientNext(s, n).value, n)
  {}

  lemma KeylessStep(s: State, step: Step, a: nat)
    requires Keyless(s, a) && QuietNext(s, step).Some?
    ensures Keyless(QuietNext(s, step).value, a)
  {
    match step
    case Arrive(n) =>
    case ParentMoves =>
    case ChildMoves(k) => ChildLeavesClients(s, k);
    case ClientMoves(n) =>
      if ClientPos(s.clients[n].pc) <= 8 { EarlyClientLeavesOthers(s, n); }
      else if ClientPos(s.clients[n].pc) <= 10 { MiddleClientLeavesOthers(s, n); }
      else { LateClientLeavesOthers(s, n); }
  }

  lemma {:induction false} NeverKeyedRun(s0: State, steps: seq<Step>, s: State, a: nat)
    requires NeverKeyed(s0, a) && QuietRun(s0, steps, s)
    ensures NeverKeyed(s, a)
    decreases |steps|
  {
    if steps != [] {
      NeverKeyedStep(s0, steps[0], a);
      NeverKeyedRun(QuietNext(s0, steps[0]).value, steps[1..], s, a);
    }
  }

  lemma NeverKeyedStep(s: State, step: Step, a: nat)
    requires NeverKeyed(s, a) && QuietNext(s, step).Some?
    ensures NeverKeyed(QuietNext(s, step).value, a)
  {
    if Keyless(s, a) {
      KeylessStep(s, step, a);
    } else if KeyLost(s, a) {
      KeyLostStep(s, step, a);
    } else {
      ChildLostStep(s, step, a);
      QuietStepKeepsExclusive(s, step);
    }
  }

  lemma AttachLosesKey(s: State, t: State, n: nat, a: nat)
    requires ChildrenInv(s) && RoundInv(s) && DebtInv(s) && s.round == Some(a) && KeyPending(s)
    requires ClientEffect(s, t, n) && s.clients[n].pc == Attach
    ensures KeyLost(t, a)
  {
    ClientKeepsRound(s, t, n);
  }

  lemma LosesKey(s: State, u: State, n: nat, a: nat)
    requires ChildrenInv(s) && RoundInv(s) && DebtInv(s) && s.round == Some(a) && KeyPending(s)
    requires n in s.clients && s.clients[n].pc == Attach && ClientNext(s, n) == Some(u)
    ensures KeyLost(u, a)
  {
    EarlyClientEffect(s, n);
    AttachLosesKey(s, u, n, a);
  }

  lemma AttachedWithoutKey(s0: State, before: seq<Step>, s: State, n: nat, a: nat)
    requires Init(s0) && OrderlyRun(s0, before, s) && LeftSet(s) == {}
    requires n in s.clients && s.clients[n].pc == Attach && s.round == Some(a) && KeyPending(s)
    ensures Next(s, ClientMoves(n)).Some? && NeverKeyed(Next(s, ClientMoves(n)).value, a)
  {
    OrderlyRunFacts(s0, before, s);
    KeyIsGone(s, n, a);
  }

  lemma KeyIsGone(s: State, n: nat, a: nat)
    requires ChildrenInv(s) && RoundInv(s) && DebtInv(s) && Exclusive(s) && s.round == Some(a) && KeyPending(s)
    requires n in s.clients && s.clients[n].pc == Attach
    ensures Next(s, ClientMoves(n)).Some? && NeverKeyed(Next(s, ClientMoves(n)).value, a)
  {
    var u := Next(s, ClientMoves(n)).value;
    assert KeyLost(u, a) by { LosesKey(s, u, n, a); }
    assert Exclusive(u) by { QuietStepKeepsExclusive(s, ClientMoves(n)); }
  }

  /** Client `n` attaches while the key of client `a` is unread. From then on, whatever happens,
      `a` has no key, so it is never paired with a child, even where it believes it is
      connected. */
  lemma AttachDuringKeyIsFatal(s0: State, before: seq<Step>, s: State, n: nat, a: nat, later: seq<Step>, t: State)
    requires Init(s0) && OrderlyRun(s0, before, s) && LeftSet(s) == {}
    requires n in s.clients && s.clients[n].pc == Attach && s.round == Some(a) && KeyPending(s)
    requires QuietRun(Next(s, ClientMoves(n)).value, later, t)
    ensures a in t.clients && (ClientPos(t.clients[a].pc) >= 8 ==> t.clients[a].key == None)
  {
    AttachedWithoutKey(s0, before, s, n, a);
    NeverKeyedRun(Next(s, ClientMoves(n)).value, later, t, a);
    NoKeyIsRead(t, a);
  }

  lemma NoKeyIsRead(t: State, a: nat)
    requires NeverKeyed(t, a)
    ensures a in t.clients && (ClientPos(t.clients[a].pc) >= 8 ==> t.clients[a].key == None)
  {}

  // ---- STEP-0 before the parent's reset: the reset erases the wake-up ----

  /** Client `n` has raised SEM_CLIENT in the previous round: after the parent's reset there are
      too few ups for both the parent and the new child. */
  ghost predicate Starved(s: State, n: nat) {
    && n in s.clients && 3 <= ClientPos(s.clients[n].pc) <= 6
    && s.semServer.val == 0 && s.cliCount <= 254
    && (forall k :: k in s.children <==> 1 <= k <= s.cliCount)
    && (forall k :: k in s.children && !(k == s.cliCount && s.parent == AwaitSync) ==> Done(s.children[k].pc))
    && (s.parent == AwaitSync ==> s.cliCount in s.children)
    && (s.parent == ResetClient || AfterReset(s, n) || FinishingRound(s))
    && (s.parent != AwaitSync ==> s.srvQueue.val == 0)
  }

  predicate Done(pc: ChildPc) {
    pc == Serving || pc == Dead(true)
  }

  ghost predicate AfterReset(s: State, n: nat)
    requires n in s.clients
  {
    && s.parent != ResetClient
    && s.semClient.val + (if s.parent == Fork || s.parent == AwaitSync then 1 else 0)
         + (if ClientPos(s.clients[n].pc) <= 5 then 1 else 0) <= 1
    && (s.parent == AwaitSync ==>
          s.srvQueue.val == 0 && s.cliCount in s.children && s.children[s.cliCount].pc == AwaitStep1)
  }

  ghost predicate FinishingRound(s: State) {
    && Syncing(s) && (10 <= SyncPos(s) <= 11 || Done(s.children[s.cliCount].pc))
    && s.srvQueue.val == if SyncPos(s) >= 12 then 1 else 0
  }

  lemma StarvedParentStep(s: State, t: State, n: nat)
    requires Starved(s, n) && ParentEffect(s, t)
    ensures Starved(t, n)
  {}

  lemma StarvedChildStep(s: State, k: nat, n: nat)
    requires Starved(s, n) && k in s.children && ChildNext(s, k).Some?
    ensures Starved(ChildNext(s, k).value, n)
  {
    assert k == s.cliCount && s.parent == AwaitSync;
    if s.children[k].pc == AwaitStep1 { EarlyChildEffect(s, k); } else { LateChildEffect(s, k); }
  }

  lemma StarvedClientStep(s: State, i: nat, n: nat)
    requires Starved(s, n) && Exclusive(s) && i in s.clients && ClientNext(s, i).Some?
    ensures Starved(ClientNext(s, i).value, n)
  {
    assert Inside(s, n);
    if i != n { OutsidersAttach(s, i, n); }
    if ClientPos(s.clients[i].pc) <= 4 { EarlyClientEffect(s, i); } else { MiddleClientEffect(s, i); }
  }

  lemma StarvedStep(s: State, step: Step, n: nat)
    requires Starved(s, n) && Exclusive(s) && QuietNext(s, step).Some?
    ensures Starved(QuietNext(s, step).value, n)
  {
    match step
    case Arrive(i) =>
    case ParentMoves =>
      ParentTakesEffect(s);
      StarvedParentStep(s, Next(s, step).value, n);
    case ChildMoves(k) => StarvedChildStep(s, k, n);
    case ClientMoves(i) => StarvedClientStep(s, i, n);
  }

  lemma {:induction false} StarvedRun(s0: State, steps: seq<Step>, s: State, n: nat)
    requires Starved(s0, n) && Exclusive(s0) && QuietRun(s0, steps, s)
    ensures Starved(s, n) && Exclusive(s)
    decreases |steps|
  {
    if steps != [] {
      StarvedStep(s0, steps[0], n);
      QuietStepKeepsExclusive(s0, steps[0]);
      StarvedRun(QuietNext(s0, steps[0]).value, steps[1..], s, n);
    }
  }

  /** Where the one client inside is about to take STEP-0, the round's client is done. */
  lemma RoundIsFinished(s: State, n: nat)
    requires Exclusive(s) && RoundInv(s) && n in s.clients && s.clients[n].pc == Step0 && s.round.Some?
    ensures RoundPos(s) >= 14
  {
    assert Inside(s, n);
    OneInside(s, n, s.round.value);
  }

  lemma EarlyStep0Starves(s: State, t: State, n: nat)
    requires ChildrenInv(s) && RoundInv(s) && ClientEffect(s, t, n) && s.clients[n].pc == Step0
    requires s.parent != AwaitStep0 && s.parent != ResetServer && s.semServer.val == 0
    requires s.round.Some? ==> RoundPos(s) >= 14
    ensures Starved(t, n)
  {
    assert SyncPos(t) == SyncPos(s);
  }

  lemma Starves(s: State, n: nat)
    requires ChildrenInv(s) && RoundInv(s) && Exclusive(s) && n in s.clients && s.clients[n].pc == Step0
    requires s.parent != AwaitStep0 && s.parent != ResetServer && s.semServer.val == 0
    ensures Starved(Next(s, ClientMoves(n)).value, n) && Exclusive(Next(s, ClientMoves(n)).value)
  {
    var u := Next(s, ClientMoves(n)).value;
    assert Starved(u, n) by {
      EarlyClientEffect(s, n);
      if s.round.Some? { RoundIsFinished(s, n); }
      EarlyStep0Starves(s, u, n);
    }
    assert Exclusive(u) by { QuietStepKeepsExclusive(s, ClientMoves(n)); }
  }

  /** Client `n` takes STEP-0 before the parent has reset SEM_CLIENT for it; SEM_SERVER is 0, as it
      is after every round whose client lives. From then on, whatever happens, it never gets past
      its wait for STEP-2 and keeps everyone else out of the handshake. */
  lemma EarlyStep0IsFatal(s0: State, before: seq<Step>, s: State, n: nat, later: seq<Step>, t: State)
    requires Init(s0) && OrderlyRun(s0, before, s) && LeftSet(s) == {}
    requires n in s.clients && s.clients[n].pc == Step0
    requires s.parent != AwaitStep0 && s.parent != ResetServer && s.semServer.val == 0
    requires QuietRun(Next(s, ClientMoves(n)).value, later, t)
    ensures n in t.clients && 3 <= ClientPos(t.clients[n].pc) <= 6
    ensures forall i :: Inside(t, i) ==> i == n
  {
    var u := Next(s, ClientMoves(n)).value;
    assert Starved(u, n) && Exclusive(u) by {
      OrderlyRunFacts(s0, before, s);
      Starves(s, n);
    }
    StarvedRun(u, later, t, n);
    forall i | Inside(t, i) ensures i == n {
      OneInside(t, n, i);
    }
  }
}
