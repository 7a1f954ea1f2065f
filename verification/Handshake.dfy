/** Correctness of the shared-memory handshake, STEP-0 to STEP-3, for any number of clients and
    any number of rounds, with clients and children that end between rounds and during the
    rounds of others. The unrestricted claims are false (Disorder.dfy), so the runs considered
    are the orderly ones: see `Orderly`. */
module Handshake {
  import opened Types
  import opened Semaphores
  import opened Runs
  import opened Rendezvous
  import opened Effects

  // ---- what is assumed about a run ----

  /** The current child: the one the parent waits for. */
  ghost predicate Syncing(s: State) {
    s.parent == AwaitSync && s.cliCount in s.children
  }

  ghost function SyncPos(s: State): nat {
    if Syncing(s) then ChildPos(s.children[s.cliCount].pc) else 0
  }

  /** Position of the client being connected; 0 when there is no round. */
  ghost function RoundPos(s: State): nat {
    if s.round.Some? && s.round.value in s.clients then ClientPos(s.clients[s.round.value].pc) else 0
  }

  /** The page carries a request that the child has not checked, or a key that has not been
      read by both sides. */
  ghost predicate RequestPending(s: State) {
    5 <= RoundPos(s) && SyncPos(s) <= 1
  }

  ghost predicate KeyPending(s: State) {
    3 <= SyncPos(s) && RoundPos(s) <= 7
  }

  /** The parent has reset the public semaphores for the next client, or has reset SEM_CLIENT
      and will find SEM_SERVER at 0 anyway. */
  ghost predicate ResetDone(s: State) {
    s.parent == AwaitStep0 || (s.parent == ResetServer && s.semServer.val == 0)
  }

  /** The assumptions, each the guard of one step. No process ends inside a handshake: a child
      not before the end of its ipc_sync, a client not between its STEP-0 and its STEP-3.
      During a round, no client ends whose down of SEM_SERVER the parent has still to reset.
      Nobody attaches (and so zeroes) the public page while it carries something unread. STEP-0
      comes after the parent's reset and in nobody else's round. */
  ghost predicate Orderly(s: State, step: Step) {
    match step
    case ChildExits(n) => n in s.children && s.parent == AwaitSync && n == s.cliCount ==> s.children[n].pc == Serving
    case ClientExits(n) =>
      n in s.clients && s.round.Some? ==>
        if n == s.round.value then ClientPos(s.clients[n].pc) >= 13 else s.semServer.undo[Client(n)] == 0
    case ClientMoves(n) =>
      && (n in s.clients && s.clients[n].pc == Attach ==> !RequestPending(s) && !KeyPending(s))
      && (n in s.clients && s.clients[n].pc == Step0 ==> s.round == None && ResetDone(s))
    case _ => true
  }

  ghost function OrderlyNext(s: State, step: Step): Option<State> {
    if Orderly(s, step) then Next(s, step) else None
  }

  ghost predicate OrderlyRun(s0: State, steps: seq<Step>, s: State) {
    IsRun(OrderlyNext, s0, steps, s)
  }

  // ---- the invariant ----

  /** Children are numbered in order; all but the current one are serving or have served, on
      their own key. */
  ghost predicate ChildrenInv(s: State) {
    && (forall k :: k in s.children <==> 1 <= k <= s.cliCount)
    && s.cliCount <= 254
    && (forall k :: k in s.children && !(k == s.cliCount && s.parent == AwaitSync) ==>
          s.children[k].pc == Serving || s.children[k].pc == Dead(true))
    && (s.parent == AwaitSync ==> s.cliCount in s.children && s.children[s.cliCount].pc != Dead(false))
    && s.srvQueue.val == (if SyncPos(s) >= 12 then 1 else 0)
    && (forall k :: k in s.children && ChildPos(s.children[k].pc) >= 4 ==> s.children[k].key == Some(k))
  }

  /** Tokens: how often the client has raised SEM_CLIENT in this round, and how many of the
      child's downs of it are in force. */
  function ClientUps(pos: nat): nat {
    if pos <= 2 then 0 else if pos <= 5 then 1 else if pos <= 12 then 2 else 3
  }

  function ChildDowns(pos: nat): nat {
    if pos == 0 || pos == 13 then 0 else if pos <= 10 then 1 else 2
  }

  /** The round's client has lowered SEM_SERVER and has not ended. */
  function ClientDowns(pos: nat): nat {
    if 7 <= pos <= 14 then 1 else 0
  }

  ghost predicate RoundInv(s: State) {
    match s.round
    case None =>
      && (s.parent == ResetClient || s.parent == ResetServer || s.parent == AwaitStep0)
      && (s.parent != ResetClient ==> s.semClient.val == 0)
      && (s.parent == AwaitStep0 ==> s.semServer.val == 0)
      && (forall i :: i in s.clients ==> !(3 <= ClientPos(s.clients[i].pc) <= 12))
    case Some(a) =>
      && a in s.clients && 3 <= RoundPos(s)
      && (forall i :: i in s.clients && i != a ==> !(3 <= ClientPos(s.clients[i].pc) <= 12))
      && s.parent != ResetClient
      && (s.parent == AwaitSync || RoundPos(s) <= 6)
      && (RoundPos(s) >= 7 ==> SyncPos(s) >= 10)
      && (SyncPos(s) >= 11 ==> RoundPos(s) >= 13)
      && s.semClient.val + (if s.parent == Fork || s.parent == AwaitSync then 1 else 0) + ChildDowns(SyncPos(s))
           == ClientUps(RoundPos(s))
      && s.semServer.val + ClientDowns(RoundPos(s)) == if SyncPos(s) >= 10 then 1 else 0
  }

  /** What the kernel would undo: outside the round nothing that the round depends on. */
  ghost predicate DebtInv(s: State) {
    && (forall p :: p != Parent ==> s.srvQueue.undo[p] == 0)
    && (forall k :: s.semServer.undo[Child(k)] == 0)
    && (forall i :: (i in s.clients ==> ClientPos(s.clients[i].pc) <= 6) ==> s.semServer.undo[Client(i)] == 0)
    && match s.round
       case None =>
         && (s.parent != ResetClient ==> forall p :: s.semClient.undo[p] == 0)
         && (s.parent == AwaitStep0 ==> forall p :: s.semServer.undo[p] == 0)
       case Some(a) =>
         && (forall p :: p != Parent && p != Child(s.cliCount) ==> s.semClient.undo[p] == 0)
         && s.semClient.undo[Child(s.cliCount)] == ChildDowns(SyncPos(s))
         && (s.parent != ResetServer ==> forall p :: p != Client(a) ==> s.semServer.undo[p] == 0)
         && s.semServer.undo[Client(a)] == ClientDowns(RoundPos(s))
  }

  ghost predicate PageInv(s: State) {
    && (s.round.Some? && RequestPending(s) ==> s.page.opcode == OP_CONNECT)
    && (s.round.Some? && KeyPending(s) ==> s.page.key == Some(s.cliCount))
  }

  /** Each living child's private segment, as far as the child has prepared it. */
  ghost predicate SegmentInv(s: State) {
    && (forall k :: k in s.segments <==> k in s.children && 5 <= ChildPos(s.children[k].pc) <= 12)
    && (forall k :: k in s.segments ==> Prepared(s.segments[k], ChildPos(s.children[k].pc)))
  }

  /** Also of clients that have ended. */
  ghost predicate HasKey(s: State, i: nat) {
    i in s.clients && s.clients[i].key.Some?
  }

  ghost predicate HasPartner(s: State, k: nat) {
    exists i :: i in s.clients && s.clients[i].key == Some(k)
  }

  /** A client reads its key in STEP-2 ... */
  ghost predicate KeyPositions(s: State) {
    && (forall i :: i in s.clients && ClientPos(s.clients[i].pc) <= 7 ==> s.clients[i].key == None)
    && (forall i :: i in s.clients && 8 <= ClientPos(s.clients[i].pc) <= 14 ==> s.clients[i].key.Some?)
    && (s.round.Some? && RoundPos(s) >= 8 ==> HasKey(s, s.round.value))
  }

  /** ... and shares it with one child, for ever. */
  ghost predicate KeyOwners(s: State) {
    && (forall i :: HasKey(s, i) ==>
          s.clients[i].key.value in s.children && ChildPos(s.children[s.clients[i].key.value].pc) >= 10)
    && (forall i, j :: HasKey(s, i) && HasKey(s, j) && s.clients[i].key == s.clients[j].key ==> i == j)
  }

  /** The current child's partner is the round's client. */
  ghost predicate KeyRound(s: State) {
    s.round.Some? && s.parent == AwaitSync ==> forall i :: HasKey(s, i) ==>
      (i == s.round.value <==> s.clients[i].key == Some(s.cliCount))
  }

  ghost predicate Partnered(s: State) {
    forall k :: k in s.children && ChildPos(s.children[k].pc) >= 11 ==> HasPartner(s, k)
  }

  ghost predicate KeyInv(s: State) {
    KeyPositions(s) && KeyOwners(s) && KeyRound(s) && Partnered(s)
  }

  ghost predicate Inv(s: State) {
    ChildrenInv(s) && RoundInv(s) && DebtInv(s) && PageInv(s) && SegmentInv(s) && KeyInv(s)
  }

  lemma InitInv(s: State)
    requires Init(s)
    ensures Inv(s)
  {}

  /** Nobody has got a key, and no child has gone back. */
  ghost predicate SameKeys(s: State, t: State) {
    && (forall i :: HasKey(s, i) <==> HasKey(t, i))
    && (forall i :: HasKey(s, i) ==> t.clients[i].key == s.clients[i].key)
    && (forall k :: k in s.children ==> k in t.children && ChildPos(t.children[k].pc) >= ChildPos(s.children[k].pc))
  }

  lemma SameKeysStay(s: State, t: State)
    requires SameKeys(s, t) && KeyOwners(s)
    ensures KeyOwners(t)
    ensures forall k :: HasPartner(s, k) ==> HasPartner(t, k)
  {
    forall k: nat | HasPartner(s, k) ensures HasPartner(t, k) {
      var i: nat :| i in s.clients && s.clients[i].key == Some(k);
      assert HasKey(s, i);
    }
  }

  /** ... nor has anybody's part in the round changed. */
  lemma KeysStay(s: State, t: State)
    requires KeyOwners(s) && KeyRound(s) && Partnered(s) && SameKeys(s, t)
    requires t.round == s.round && t.parent == s.parent && t.cliCount == s.cliCount
    requires forall k :: k in t.children && ChildPos(t.children[k].pc) >= 11 ==>
      k in s.children && ChildPos(s.children[k].pc) >= 11
    ensures KeyOwners(t) && KeyRound(t) && Partnered(t)
  {
    SameKeysStay(s, t);
  }

  // ---- the child's steps ----

  /** The check of STEP-1 finds OP_CONNECT, and the segment's key is free: the child never
      takes an error exit. */
  lemma ChildTakesEffect(s: State, n: nat)
    requires ChildrenInv(s) && RoundInv(s) && PageInv(s) && SegmentInv(s)
    requires n in s.children && ChildNext(s, n).Some?
    ensures n == s.cliCount && Syncing(s) && s.round.Some? && ChildEffect(s, ChildNext(s, n).value, n)
    ensures s.children[n].pc == ReadBack ==> s.page.key == Some(n)
  {
    assert n == s.cliCount && Syncing(s) && s.round.Some?;
    var pos := ChildPos(s.children[n].pc);
    if pos <= 3 {
      EarlyChildEffect(s, n);
    } else if pos == 4 {
      CreateEffect(s, n);
    } else if pos <= 8 {
      SegmentEffect(s, n);
    } else {
      LateChildEffect(s, n);
    }
  }

  lemma ChildKeepsChildren(s: State, t: State)
    requires ChildrenInv(s) && Syncing(s) && ChildEffect(s, t, s.cliCount)
    requires s.children[s.cliCount].pc == ReadBack ==> s.page.key == Some(s.cliCount)
    ensures ChildrenInv(t)
  {
    assert SyncPos(t) == SyncPos(s) + 1;
  }

  lemma ChildKeepsRound(s: State, t: State)
    requires RoundInv(s) && Syncing(s) && s.round.Some? && ChildEffect(s, t, s.cliCount)
    ensures RoundInv(t)
  {}

  lemma ChildKeepsDebts(s: State, t: State)
    requires DebtInv(s) && Syncing(s) && s.round.Some? && ChildEffect(s, t, s.cliCount)
    ensures DebtInv(t)
  {}

  lemma ChildKeepsPage(s: State, t: State)
    requires RoundInv(s) && PageInv(s) && Syncing(s) && s.cliCount <= 254 && ChildEffect(s, t, s.cliCount)
    ensures PageInv(t)
  {}

  lemma ChildKeepsSegments(s: State, t: State)
    requires SegmentInv(s) && Syncing(s) && ChildEffect(s, t, s.cliCount)
    ensures SegmentInv(t)
  {}

  lemma ChildKeepsKeys(s: State, t: State)
    requires RoundInv(s) && KeyInv(s) && Syncing(s) && s.round.Some? && ChildEffect(s, t, s.cliCount) && RoundInv(t)
    ensures KeyInv(t)
  {
    assert SameKeys(s, t);
    SameKeysStay(s, t);
    if SyncPos(t) >= 11 {
      assert HasKey(s, s.round.value) && HasPartner(s, s.cliCount);
    }
  }

  lemma ChildKeepsInv(s: State, n: nat)
    requires Inv(s) && n in s.children && ChildNext(s, n).Some?
    ensures Inv(ChildNext(s, n).value)
  {
    var t := ChildNext(s, n).value;
    ChildTakesEffect(s, n);
    ChildKeepsChildren(s, t);
    ChildKeepsRound(s, t);
    ChildKeepsDebts(s, t);
    ChildKeepsPage(s, t);
    ChildKeepsSegments(s, t);
    ChildKeepsKeys(s, t);
  }

  // ---- the clients' steps ----

  /** A client finds its private segment: it never takes an error exit. */
  lemma ClientTakesEffect(s: State, n: nat)
    requires RoundInv(s) && SegmentInv(s) && KeyInv(s) && n in s.clients && ClientNext(s, n).Some?
    ensures ClientEffect(s, ClientNext(s, n).value, n)
  {
    var pos := ClientPos(s.clients[n].pc);
    if pos <= 4 {
      EarlyClientEffect(s, n);
    } else if pos <= 8 {
      MiddleClientEffect(s, n);
    } else {
      assert pos <= 11 ==> HasKey(s, n) && s.round == Some(n) && 10 <= SyncPos(s) <= 10;
      LateClientEffect(s, n);
    }
  }

  lemma ClientKeepsRound(s: State, t: State, n: nat)
    requires RoundInv(s) && ClientEffect(s, t, n) && (s.clients[n].pc == Step0 ==> Orderly(s, ClientMoves(n)))
    ensures RoundInv(t)
  {}

  lemma ClientKeepsDebts(s: State, t: State, n: nat)
    requires RoundInv(s) && DebtInv(s) && ClientEffect(s, t, n) && Orderly(s, ClientMoves(n))
    ensures DebtInv(t)
  {}

  lemma ClientKeepsPage(s: State, t: State, n: nat)
    requires RoundInv(s) && PageInv(s) && ClientEffect(s, t, n) && Orderly(s, ClientMoves(n))
    ensures PageInv(t)
  {}

  lemma ClientKeepsChildren(s: State, t: State, n: nat)
    requires ChildrenInv(s) && SegmentInv(s) && ClientEffect(s, t, n)
    ensures ChildrenInv(t) && SegmentInv(t)
  {}

  lemma ClientKeepsKeys(s: State, t: State, n: nat)
    requires KeyInv(s) && ClientEffect(s, t, n) && s.clients[n].pc != Step0 && s.clients[n].pc != ReadKey
    ensures KeyInv(t)
  {
    KeysStay(s, t);
  }

  lemma Step0KeepsKeys(s: State, t: State, n: nat)
    requires KeyInv(s) && ClientEffect(s, t, n) && s.clients[n].pc == Step0 && s.parent != AwaitSync
    ensures KeyInv(t)
  {
    SameKeysStay(s, t);
  }

  lemma ReadingKeepsKeys(s: State, t: State, n: nat)
    requires ChildrenInv(s) && RoundInv(s) && PageInv(s) && KeyInv(s) && ClientEffect(s, t, n)
    requires s.clients[n].pc == ReadKey
    ensures KeyInv(t)
  {
    assert s.round == Some(n) && t.clients[n].key == Some(s.cliCount);
    assert forall i :: i != n ==> (HasKey(t, i) <==> HasKey(s, i));
    forall k | k in t.children && ChildPos(t.children[k].pc) >= 11 ensures HasPartner(t, k) {
      assert HasPartner(s, k);
    }
  }

  lemma ClientEffectKeepsInv(s: State, t: State, n: nat)
    requires Inv(s) && ClientEffect(s, t, n) && Orderly(s, ClientMoves(n))
    ensures Inv(t)
  {
    ClientKeepsRound(s, t, n);
    ClientKeepsDebts(s, t, n);
    ClientKeepsPage(s, t, n);
    ClientKeepsChildren(s, t, n);
    match s.clients[n].pc
    case Step0 => Step0KeepsKeys(s, t, n);
    case ReadKey => ReadingKeepsKeys(s, t, n);
    case _ => ClientKeepsKeys(s, t, n);
  }

  lemma ClientKeepsInv(s: State, n: nat)
    requires Inv(s) && n in s.clients && ClientNext(s, n).Some? && Orderly(s, ClientMoves(n))
    ensures Inv(ClientNext(s, n).value)
  {
    ClientTakesEffect(s, n);
    ClientEffectKeepsInv(s, ClientNext(s, n).value, n);
  }

  // ---- the parent's steps ----

  lemma ParentKeepsChildren(s: State, t: State)
    requires ChildrenInv(s) && ParentEffect(s, t)
    ensures ChildrenInv(t)
  {}

  lemma ParentKeepsRound(s: State, t: State)
    requires ChildrenInv(s) && RoundInv(s) && ParentEffect(s, t)
    ensures RoundInv(t)
  {}

  lemma ParentKeepsDebts(s: State, t: State)
    requires ChildrenInv(s) && RoundInv(s) && DebtInv(s) && ParentEffect(s, t)
    ensures DebtInv(t)
  {}

  lemma ParentKeepsSegments(s: State, t: State)
    requires ChildrenInv(s) && RoundInv(s) && PageInv(s) && SegmentInv(s) && ParentEffect(s, t)
    ensures PageInv(t) && SegmentInv(t)
  {}

  lemma ParentKeepsKeys(s: State, t: State)
    requires ChildrenInv(s) && RoundInv(s) && KeyInv(s) && ParentEffect(s, t)
    ensures KeyInv(t)
  {
    assert SameKeys(s, t);
    SameKeysStay(s, t);
  }

  lemma ParentKeepsInv(s: State)
    requires Inv(s) && ParentNext(s).Some?
    ensures Inv(ParentNext(s).value)
  {
    var t := ParentNext(s).value;
    ParentTakesEffect(s);
    ParentKeepsChildren(s, t);
    ParentKeepsRound(s, t);
    ParentKeepsDebts(s, t);
    ParentKeepsSegments(s, t);
    ParentKeepsKeys(s, t);
  }

  // ---- arrivals and ends ----

  lemma ArrivalKeepsRound(s: State, t: State, n: nat)
    requires ChildrenInv(s) && RoundInv(s) && DebtInv(s) && PageInv(s) && SegmentInv(s) && Arrived(s, t, n)
    ensures ChildrenInv(t) && RoundInv(t) && DebtInv(t) && PageInv(t) && SegmentInv(t)
  {}

  lemma ArrivalKeepsKeys(s: State, t: State, n: nat)
    requires RoundInv(s) && KeyInv(s) && Arrived(s, t, n)
    ensures KeyInv(t)
  {
    KeysStay(s, t);
  }

  /** What the end of a client does to the counters. */
  lemma ClientEndTokens(s: State, t: State, n: nat)
    requires RoundInv(s) && DebtInv(s) && ClientEnded(s, t, n) && Orderly(s, ClientExits(n))
    ensures t.srvQueue.val == s.srvQueue.val
    ensures s.round.Some? || s.parent != ResetClient ==> t.semClient.val == s.semClient.val
    ensures s.round == None && s.parent == AwaitStep0 ==> t.semServer.val == s.semServer.val
    ensures s.round.Some? ==>
      t.semServer.val == s.semServer.val + if s.round == Some(n) then ClientDowns(RoundPos(s)) else 0
  {}

  lemma ClientEndKeepsChildren(s: State, t: State, n: nat)
    requires ChildrenInv(s) && ClientEnded(s, t, n) && t.srvQueue.val == s.srvQueue.val
    ensures ChildrenInv(t)
  {}

  lemma ClientEndKeepsRound(s: State, t: State, n: nat)
    requires RoundInv(s) && DebtInv(s) && ClientEnded(s, t, n) && Orderly(s, ClientExits(n))
    ensures RoundInv(t)
  {
    assert SyncPos(t) == SyncPos(s) && (s.round != Some(n) ==> RoundPos(t) == RoundPos(s));
    ClientEndTokens(s, t, n);
  }

  lemma ClientEndKeepsDebts(s: State, t: State, n: nat)
    requires DebtInv(s) && ClientEnded(s, t, n)
    ensures DebtInv(t)
  {}

  lemma ClientEndKeepsPage(s: State, t: State, n: nat)
    requires RoundInv(s) && PageInv(s) && SegmentInv(s) && ClientEnded(s, t, n) && Orderly(s, ClientExits(n))
    ensures PageInv(t) && SegmentInv(t)
  {}

  lemma ClientEndKeepsPositions(s: State, t: State, n: nat)
    requires KeyPositions(s) && ClientEnded(s, t, n) && Orderly(s, ClientExits(n))
    ensures KeyPositions(t)
  {}

  lemma ClientEndKeepsKeys(s: State, t: State, n: nat)
    requires KeyOwners(s) && KeyRound(s) && Partnered(s) && ClientEnded(s, t, n)
    ensures KeyOwners(t) && KeyRound(t) && Partnered(t)
  {
    KeysStay(s, t);
  }

  /** What the end of a child does to the counters. */
  lemma ChildEndTokens(s: State, t: State, n: nat)
    requires ChildrenInv(s) && RoundInv(s) && DebtInv(s) && ChildEnded(s, t, n) && Orderly(s, ChildExits(n))
    ensures t.srvQueue.val == s.srvQueue.val && t.semServer.val == s.semServer.val
    ensures s.round == None && s.parent != ResetClient ==> t.semClient.val == s.semClient.val
    ensures s.round.Some? ==>
      t.semClient.val == s.semClient.val + if Syncing(s) && n == s.cliCount then 2 else 0
  {}

  lemma ChildEndKeepsChildren(s: State, t: State, n: nat)
    requires ChildrenInv(s) && ChildEnded(s, t, n) && Orderly(s, ChildExits(n)) && t.srvQueue.val == s.srvQueue.val
    ensures ChildrenInv(t)
  {}

  lemma ChildEndKeepsRound(s: State, t: State, n: nat)
    requires ChildrenInv(s) && RoundInv(s) && DebtInv(s) && ChildEnded(s, t, n) && Orderly(s, ChildExits(n))
    ensures RoundInv(t)
  {
    ChildEndTokens(s, t, n);
  }

  lemma ChildEndKeepsDebts(s: State, t: State, n: nat)
    requires DebtInv(s) && ChildEnded(s, t, n)
    ensures DebtInv(t)
  {}

  lemma ChildEndKeepsPage(s: State, t: State, n: nat)
    requires RoundInv(s) && PageInv(s) && ChildEnded(s, t, n) && Orderly(s, ChildExits(n))
    ensures PageInv(t)
  {}

  lemma ChildEndKeepsSegments(s: State, t: State, n: nat)
    requires SegmentInv(s) && ChildEnded(s, t, n) && s.children[n] == ChildState(Serving, Some(n))
    ensures SegmentInv(t)
  {}

  lemma ChildEndKeepsKeys(s: State, t: State, n: nat)
    requires KeyInv(s) && ChildEnded(s, t, n) && s.children[n].pc == Serving
    ensures KeyInv(t)
  {
    KeysStay(s, t);
  }

  lemma ClientEndKeepsInv(s: State, t: State, n: nat)
    requires Inv(s) && ClientEnded(s, t, n) && Orderly(s, ClientExits(n))
    ensures Inv(t)
  {
    ClientEndTokens(s, t, n);
    ClientEndKeepsChildren(s, t, n);
    ClientEndKeepsRound(s, t, n);
    ClientEndKeepsDebts(s, t, n);
    ClientEndKeepsPage(s, t, n);
    ClientEndKeepsPositions(s, t, n);
    ClientEndKeepsKeys(s, t, n);
  }

  lemma ChildEndKeepsInv(s: State, t: State, n: nat)
    requires Inv(s) && ChildEnded(s, t, n) && Orderly(s, ChildExits(n))
    ensures Inv(t)
  {
    ChildEndTokens(s, t, n);
    ChildEndKeepsChildren(s, t, n);
    ChildEndKeepsRound(s, t, n);
    ChildEndKeepsDebts(s, t, n);
    ChildEndKeepsPage(s, t, n);
    ChildEndKeepsSegments(s, t, n);
    ChildEndKeepsKeys(s, t, n);
  }

  // ---- every orderly run ----

  lemma StepKeepsInv(s: State, step: Step)
    requires Inv(s) && Orderly(s, step) && Next(s, step).Some?
    ensures Inv(Next(s, step).value)
  {
    match step
    case Arrive(n) =>
      ArrivalKeepsRound(s, Next(s, step).value, n);
      ArrivalKeepsKeys(s, Next(s, step).value, n);
    case ParentMoves => ParentKeepsInv(s);
    case ChildMoves(n) => ChildKeepsInv(s, n);
    case ClientMoves(n) => ClientKeepsInv(s, n);
    case ClientExits(n) =>
      ExitTakesEffect(s, step);
      ClientEndKeepsInv(s, Next(s, step).value, n);
    case ChildExits(n) =>
      ExitTakesEffect(s, step);
      ChildEndKeepsInv(s, Next(s, step).value, n);
  }

  lemma {:induction false} RunKeepsInv(s0: State, steps: seq<Step>, s: State)
    requires Inv(s0) && OrderlyRun(s0, steps, s)
    ensures Inv(s)
    decreases |steps|
  {
    if steps != [] {
      StepKeepsInv(s0, steps[0]);
      RunKeepsInv(Next(s0, steps[0]).value, steps[1..], s);
    }
  }

  lemma {:induction false} OrderlyRunReaches(s0: State, steps: seq<Step>, s: State)
    requires OrderlyRun(s0, steps, s)
    ensures Reaches(s0, steps, s)
    decreases |steps|
  {
    if steps != [] {
      OrderlyRunReaches(Next(s0, steps[0]).value, steps[1..], s);
    }
  }

  // ---- safety ----

  /** Client `i` and child `k` have the same private key, which nobody else has ever had; while
      the child lives the page is zeroed and the two semaphores are 0. */
  ghost predicate Paired(s: State, i: nat, k: nat) {
    && i in s.clients && k in s.children
    && s.clients[i].key == Some(k) && s.children[k].key == Some(k)
    && (forall j :: j in s.clients && j != i ==> s.clients[j].key != Some(k))
    && (forall l :: l in s.children && l != k && ChildPos(s.children[l].pc) >= 4 ==> s.children[l].key != Some(k))
    && (!s.children[k].pc.Dead? ==> k in s.segments && s.segments[k] == READY)
  }

  lemma InvPairs(s: State, i: nat)
    requires ChildrenInv(s) && SegmentInv(s) && KeyOwners(s) && HasKey(s, i)
    ensures Paired(s, i, s.clients[i].key.value)
  {
    forall j | j in s.clients && j != i ensures s.clients[j].key != s.clients[i].key {
      assert HasKey(s, j) ==> s.clients[j].key != s.clients[i].key;
    }
  }

  lemma ConnectedArePaired(s: State)
    requires ChildrenInv(s) && SegmentInv(s) && KeyInv(s)
    ensures forall i :: i in s.clients && s.clients[i].pc == Connected ==> exists k :: Paired(s, i, k)
  {
    forall i | i in s.clients && s.clients[i].pc == Connected ensures exists k :: Paired(s, i, k) {
      InvPairs(s, i);
    }
  }

  lemma ServingArePaired(s: State)
    requires ChildrenInv(s) && SegmentInv(s) && KeyInv(s)
    ensures forall k :: k in s.children && s.children[k].pc == Serving ==> exists i :: Paired(s, i, k)
  {
    forall k | k in s.children && s.children[k].pc == Serving ensures exists i :: Paired(s, i, k) {
      assert HasPartner(s, k);
      var i :| i in s.clients && s.clients[i].key == Some(k);
      InvPairs(s, i);
    }
  }

  /** The next step of the process is an error exit. */
  predicate ClientFails(s: State, n: nat) {
    n in s.clients && ClientNext(s, n).Some? && ClientNext(s, n).value.clients[n].pc.Gone?
  }

  predicate ChildFails(s: State, n: nat) {
    n in s.children && ChildNext(s, n).Some? && ChildNext(s, n).value.children[n].pc.Dead?
  }

  ghost predicate NobodyFails(s: State) {
    forall n :: !ClientFails(s, n) && !ChildFails(s, n)
  }

  lemma EffectsAreNoFailures(s: State, t: State, n: nat)
    ensures ClientEffect(s, t, n) ==> !t.clients[n].pc.Gone?
    ensures ChildEffect(s, t, n) ==> !t.children[n].pc.Dead?
  {}

  lemma ClientDoesNotFail(s: State, n: nat)
    requires RoundInv(s) && SegmentInv(s) && KeyInv(s)
    ensures !ClientFails(s, n)
  {
    if ClientFails(s, n) {
      ClientTakesEffect(s, n);
      EffectsAreNoFailures(s, ClientNext(s, n).value, n);
    }
  }

  lemma ChildDoesNotFail(s: State, n: nat)
    requires ChildrenInv(s) && RoundInv(s) && PageInv(s) && SegmentInv(s)
    ensures !ChildFails(s, n)
  {
    if ChildFails(s, n) {
      ChildTakesEffect(s, n);
      EffectsAreNoFailures(s, ChildNext(s, n).value, n);
    }
  }

  lemma InvHasNoFailure(s: State)
    requires Inv(s)
    ensures NobodyFails(s)
  {
    forall n ensures !ClientFails(s, n) && !ChildFails(s, n) {
      ClientDoesNotFail(s, n);
      ChildDoesNotFail(s, n);
    }
  }

  /** The parent can end the round: the round's client and the current child are paired, and the
      public semaphores are 0 but for what one of the two has undone by ending already. */
  ghost predicate RoundIsComplete(s: State) {
    && s.round.Some? && s.round.value in s.clients && s.cliCount in s.children && Paired(s, s.round.value, s.cliCount)
    && (s.children[s.cliCount].pc == Serving || s.children[s.cliCount].pc == Dead(true))
    && s.semServer.val == (if s.clients[s.round.value].pc.Gone? then 1 else 0)
    && s.semClient.val == (if s.children[s.cliCount].pc.Dead? then 2 else 0)
  }

  lemma InvEndsRoundsClean(s: State)
    requires ChildrenInv(s) && RoundInv(s) && SegmentInv(s) && KeyInv(s) && s.parent == AwaitSync && ParentNext(s).Some?
    ensures RoundIsComplete(s)
  {
    assert SyncPos(s) >= 12 && RoundPos(s) >= 13;
    assert Paired(s, s.round.value, s.cliCount) by { InvPairs(s, s.round.value); }
  }

  /** Main result, safety. In every orderly run no process takes an error exit; every connected
      client is paired with a child and every serving child with a client; and when the parent
      ends a round, its two parties are paired and the public semaphores are back at 0. */
  lemma HandshakeIsCorrect(s0: State, steps: seq<Step>, s: State)
    requires Init(s0) && OrderlyRun(s0, steps, s)
    ensures NobodyFails(s)
    ensures forall i :: i in s.clients && s.clients[i].pc == Connected ==> exists k :: Paired(s, i, k)
    ensures forall k :: k in s.children && s.children[k].pc == Serving ==> exists i :: Paired(s, i, k)
    ensures s.parent == AwaitSync && Next(s, ParentMoves).Some? ==> RoundIsComplete(s)
  {
    InitInv(s0);
    RunKeepsInv(s0, steps, s);
    assert NobodyFails(s) by { InvHasNoFailure(s); }
    PairsAreComplete(s);
    RoundsEndComplete(s);
  }

  lemma PairsAreComplete(s: State)
    requires Inv(s)
    ensures forall i :: i in s.clients && s.clients[i].pc == Connected ==> exists k :: Paired(s, i, k)
    ensures forall k :: k in s.children && s.children[k].pc == Serving ==> exists i :: Paired(s, i, k)
  {
    ConnectedArePaired(s);
    ServingArePaired(s);
  }

  lemma RoundsEndComplete(s: State)
    requires Inv(s)
    ensures s.parent == AwaitSync && Next(s, ParentMoves).Some? ==> RoundIsComplete(s)
  {
    if s.parent == AwaitSync && Next(s, ParentMoves).Some? {
      InvEndsRoundsClean(s);
    }
  }

  // ---- the guards are those of the invariant ----

  /** Every step keeps the invariant exactly when it is orderly. */
  lemma GuardsAreExact(s: State, step: Step)
    requires Inv(s) && Next(s, step).Some?
    ensures Inv(Next(s, step).value) <==> Orderly(s, step)
  {
    if Orderly(s, step) {
      StepKeepsInv(s, step);
    } else {
      BadStepBreaksInv(s, step);
    }
  }

  lemma BadStepBreaksInv(s: State, step: Step)
    requires Inv(s) && Next(s, step).Some? && !Orderly(s, step)
    ensures !Inv(Next(s, step).value)
  {
    var t := Next(s, step).value;
    match step {
      case ClientMoves(n) =>
        EarlyClientEffect(s, n);
        if s.clients[n].pc == Step0 { EarlyStep0BreaksRound(s, t, n); } else { LateAttachBreaksPage(s, t, n); }
      case ClientExits(n) =>
        ExitTakesEffect(s, step);
        BadClientEndBreaksRound(s, t, n);
      case ChildExits(n) =>
        ExitTakesEffect(s, step);
    }
  }

  lemma EarlyStep0BreaksRound(s: State, t: State, n: nat)
    requires ChildrenInv(s) && RoundInv(s) && ClientEffect(s, t, n)
    requires s.clients[n].pc == Step0 && !(s.round == None && ResetDone(s))
    ensures !RoundInv(t)
  {}

  lemma LateAttachBreaksPage(s: State, t: State, n: nat)
    requires RoundInv(s) && ClientEffect(s, t, n) && s.clients[n].pc == Attach && (RequestPending(s) || KeyPending(s))
    ensures !PageInv(t)
  {}

  lemma BadClientEndBreaksRound(s: State, t: State, n: nat)
    requires RoundInv(s) && DebtInv(s) && ClientEnded(s, t, n) && !Orderly(s, ClientExits(n))
    ensures !RoundInv(t)
  {}
}
