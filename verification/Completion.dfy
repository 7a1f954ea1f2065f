/** The handshakes under way after an orderly run are completed, in whatever order their
    participants move, and with newcomers, bystanders and orderly ends in between. */
module Completion {
  import opened Types
  import opened Runs
  import opened FiniteSets
  import opened Rendezvous
  import opened Effects
  import opened Handshake

  // ---- somebody can move ----

  /** Nothing is under way: the parent waits for STEP-0 and nobody is in the handshake. */
  ghost predicate Quiescent(s: State) {
    s.round == None && s.parent == AwaitStep0 && forall i :: !Inside(s, i)
  }

  /** A step of a process that has work to do in the handshake. */
  ghost predicate Participates(s: State, step: Step) {
    step == ParentMoves || step.ChildMoves? || (step.ClientMoves? && Inside(s, step.n))
  }

  ghost function WorkNext(s: State, step: Step): Option<State> {
    if Participates(s, step) then OrderlyNext(s, step) else None
  }

  /** A step that can be taken, given by who is ahead in the token equations. */
  ghost function Eligible(s: State): Step {
    if s.parent == AwaitStep0 && s.semClient.val == 0 then
      if exists i :: Inside(s, i) then (var i :| Inside(s, i); ClientMoves(i)) else ParentMoves
    else if s.parent != AwaitSync || SyncPos(s) >= 12 then ParentMoves
    else if s.semClient.val == 0 && (SyncPos(s) == 0 || SyncPos(s) == 10) && s.round.Some? then ClientMoves(s.round.value)
    else ChildMoves(s.cliCount)
  }

  /** No state with unfinished business is stuck, short of the 254 connections that the keys
      allow. */
  lemma NothingIsStuck(s: State)
    requires ChildrenInv(s) && RoundInv(s) && !Quiescent(s)
    requires s.parent == Fork ==> s.cliCount < 254
    ensures WorkNext(s, Eligible(s)).Some?
  {
    if s.parent == AwaitStep0 && s.semClient.val == 0 {
      NewcomerCanMove(s);
    } else if s.parent == AwaitSync && SyncPos(s) < 12 {
      if s.semClient.val == 0 && (SyncPos(s) == 0 || SyncPos(s) == 10) {
        CallerCanMove(s);
      } else {
        ChildCanMove(s);
      }
    }
  }

  lemma NewcomerCanMove(s: State)
    requires RoundInv(s) && ChildrenInv(s) && !Quiescent(s) && s.parent == AwaitStep0 && s.semClient.val == 0
    ensures WorkNext(s, Eligible(s)).Some?
  {
    assert s.round == None;
  }

  /** The current child waits for an up of SEM_CLIENT: the client of the round is to give it. */
  lemma CallerCanMove(s: State)
    requires RoundInv(s) && ChildrenInv(s) && s.parent == AwaitSync && s.semClient.val == 0
    requires SyncPos(s) == 0 || SyncPos(s) == 10
    ensures WorkNext(s, Eligible(s)).Some?
  {
    assert Inside(s, s.round.value);
  }

  lemma ChildCanMove(s: State)
    requires ChildrenInv(s) && RoundInv(s) && s.parent == AwaitSync && SyncPos(s) < 12
    requires s.semClient.val == 0 ==> SyncPos(s) != 0 && SyncPos(s) != 10
    ensures WorkNext(s, Eligible(s)).Some?
  {}

  // ---- every move uses up work ----

  /** About to take STEP-0. */
  ghost function WaitingSet(s: State): set<nat> {
    set i | i in s.clients && s.clients[i].pc == Step0
  }

  /** Only has to release the queue. */
  ghost function LeavingSet(s: State): set<nat> {
    set i | i in s.clients && s.clients[i].pc == LeaveQueue && s.round != Some(i)
  }

  /** How much work is left in the handshake: the current round's, a whole round for each
      client about to take STEP-0, and the release of the queue by each that is done. */
  ghost function Rank(s: State): nat {
    RoundWork(s) + 100 * |WaitingSet(s)| + |LeavingSet(s)|
  }

  ghost function RoundWork(s: State): nat {
    if s.round == None then
      if s.parent == ResetClient then 2 else if s.parent == ResetServer then 1 else 0
    else
      (if RoundPos(s) >= 14 then 0 else 14 - RoundPos(s)) + ParentWork(s.parent)
      + if s.parent == AwaitSync then (if SyncPos(s) >= 12 then 0 else 12 - SyncPos(s)) else 12
  }

  function ParentWork(pc: ParentPc): nat {
    match pc
    case ResetClient => 7
    case ResetServer => 6
    case AwaitStep0 => 5
    case Fork => 4
    case AwaitSync => 3
  }

  /** Forks still to come in the rounds already begun or about to begin. */
  ghost function ForksLeft(s: State): nat {
    (if s.round.Some? && s.parent != AwaitSync then 1 else 0) + |WaitingSet(s)|
  }

  /** A client enters the queue: a whole round to come. */
  ghost predicate Enters(s: State, step: Step) {
    step.ClientMoves? && step.n in s.clients && s.clients[step.n].pc == EnterQueue
  }

  /** What a step does to the work left: a participant uses some up, an entry brings a round, and
      nothing else adds any. */
  ghost predicate Progress(s: State, t: State, works: bool, enters: bool) {
    && Rank(t) + (if works then 1 else 0) <= Rank(s) + (if enters then 100 else 0)
    && t.cliCount + ForksLeft(t) <= s.cliCount + ForksLeft(s) + (if enters then 1 else 0)
  }

  lemma ParentProgress(s: State, t: State)
    requires ChildrenInv(s) && RoundInv(s) && ParentEffect(s, t)
    ensures Progress(s, t, true, false)
  {
    assert WaitingSet(t) == WaitingSet(s);
    if s.parent == AwaitSync {
      // the round's client may become one that only has to release the queue
      SizesDiffer(LeavingSet(s), LeavingSet(t), s.round.value);
      assert SyncPos(s) >= 12;
    } else {
      assert LeavingSet(t) == LeavingSet(s);
    }
  }

  lemma ChildProgress(s: State, t: State)
    requires Syncing(s) && s.round.Some? && ChildEffect(s, t, s.cliCount)
    ensures Progress(s, t, true, false)
  {
    assert WaitingSet(t) == WaitingSet(s) && LeavingSet(t) == LeavingSet(s);
  }

  /** A client's step moves nobody else in or out. */
  lemma ClientCounts(s: State, t: State, n: nat)
    requires ClientEffect(s, t, n) && (s.clients[n].pc == Step0 ==> s.round == None)
    ensures var pc := s.clients[n].pc;
            && |WaitingSet(t)| + (if pc == Step0 then 1 else 0) == |WaitingSet(s)| + (if pc == EnterQueue then 1 else 0)
            && |LeavingSet(t)| + (if pc == LeaveQueue && s.round != Some(n) then 1 else 0)
               == |LeavingSet(s)| + (if pc == Step3 && s.round != Some(n) then 1 else 0)
  {
    SizesDiffer(WaitingSet(s), WaitingSet(t), n);
    SizesDiffer(LeavingSet(s), LeavingSet(t), n);
  }

  lemma ClientProgress(s: State, t: State, n: nat)
    requires RoundInv(s) && ClientEffect(s, t, n) && Orderly(s, ClientMoves(n))
    ensures Progress(s, t, Inside(s, n), s.clients[n].pc == EnterQueue)
  {
    ClientCounts(s, t, n);
  }

  lemma ArrivalProgress(s: State, t: State, n: nat)
    requires Arrived(s, t, n) && s.round != Some(n)
    ensures Progress(s, t, false, false)
  {
    assert WaitingSet(t) == WaitingSet(s) && LeavingSet(t) == LeavingSet(s);
  }

  lemma ClientEndProgress(s: State, t: State, n: nat)
    requires ClientEnded(s, t, n)
    ensures Progress(s, t, false, false)
  {
    SizesDiffer(WaitingSet(s), WaitingSet(t), n);
    SizesDiffer(LeavingSet(s), LeavingSet(t), n);
  }

  lemma ChildEndProgress(s: State, t: State, n: nat)
    requires ChildEnded(s, t, n)
    ensures Progress(s, t, false, false)
  {
    assert WaitingSet(t) == WaitingSet(s) && LeavingSet(t) == LeavingSet(s);
  }

  lemma MoveIsProgress(s: State, step: Step)
    requires Inv(s) && OrderlyNext(s, step).Some? && (step.ParentMoves? || step.ChildMoves? || step.ClientMoves?)
    ensures Progress(s, OrderlyNext(s, step).value, Participates(s, step), Enters(s, step))
  {
    var t := Next(s, step).value;
    match step
    case ParentMoves =>
      ParentTakesEffect(s);
      ParentProgress(s, t);
    case ChildMoves(n) =>
      ChildTakesEffect(s, n);
      ChildProgress(s, t);
    case ClientMoves(n) =>
      ClientTakesEffect(s, n);
      ClientProgress(s, t, n);
  }

  lemma OtherIsProgress(s: State, step: Step)
    requires RoundInv(s) && OrderlyNext(s, step).Some? && (step.Arrive? || step.ClientExits? || step.ChildExits?)
    ensures Progress(s, OrderlyNext(s, step).value, false, false)
  {
    var t := Next(s, step).value;
    match step
    case Arrive(n) => ArrivalProgress(s, t, n);
    case ClientExits(n) =>
      ExitTakesEffect(s, step);
      ClientEndProgress(s, t, n);
    case ChildExits(n) =>
      ExitTakesEffect(s, step);
      ChildEndProgress(s, t, n);
  }

  /** So every schedule has only so many participants' steps to each entry. */
  lemma EveryStepIsProgress(s: State, step: Step)
    requires Inv(s) && OrderlyNext(s, step).Some?
    ensures Progress(s, OrderlyNext(s, step).value, Participates(s, step), Enters(s, step))
  {
    match step
    case Arrive(n) => OtherIsProgress(s, step);
    case ClientExits(n) => OtherIsProgress(s, step);
    case ChildExits(n) => OtherIsProgress(s, step);
    case _ => MoveIsProgress(s, step);
  }

  // ---- and nobody is left behind ----

  /** Has been let in by the queue, and has not ended. */
  ghost predicate Admitted(s: State, i: nat) {
    Inside(s, i) || (i in s.clients && s.clients[i].pc == Connected)
  }

  /** The client's child, if it knows one, has not ended. */
  ghost predicate PartnerLives(s: State, i: nat) {
    HasKey(s, i) ==> s.clients[i].key.value in s.children && !s.children[s.clients[i].key.value].pc.Dead?
  }

  ghost predicate HasEnded(s: State, i: nat) {
    i in s.clients && s.clients[i].pc.Gone?
  }

  /** Client `i` is still let in unless it has ended, and its child lives unless it has ended
      (`ends`). */
  ghost predicate StillAdmitted(s: State, t: State, i: nat, ends: bool) {
    && (HasEnded(s, i) ==> HasEnded(t, i))
    && (Admitted(s, i) ==> Admitted(t, i) || HasEnded(t, i))
    && (Admitted(s, i) && !ends && PartnerLives(s, i) ==> PartnerLives(t, i) || HasEnded(t, i))
  }

  lemma ParentKeepsAdmitted(s: State, t: State, i: nat)
    requires ChildrenInv(s) && ParentEffect(s, t)
    ensures StillAdmitted(s, t, i, false)
  {}

  lemma ChildKeepsAdmitted(s: State, t: State, n: nat, i: nat)
    requires ChildEffect(s, t, n)
    ensures StillAdmitted(s, t, i, false)
  {}

  lemma ClientKeepsAdmitted(s: State, t: State, n: nat, i: nat)
    requires ChildrenInv(s) && RoundInv(s) && PageInv(s) && ClientEffect(s, t, n)
    ensures StillAdmitted(s, t, i, false)
  {}

  lemma OtherKeepsAdmitted(s: State, t: State, n: nat, i: nat)
    requires Arrived(s, t, n) || ClientEnded(s, t, n) || ChildEnded(s, t, n)
    ensures StillAdmitted(s, t, i, ChildEnded(s, t, n))
  {}

  lemma StepKeepsAdmitted(s: State, step: Step, i: nat)
    requires Inv(s) && OrderlyNext(s, step).Some?
    ensures StillAdmitted(s, OrderlyNext(s, step).value, i, step.ChildExits?)
  {
    var t := Next(s, step).value;
    match step
    case ParentMoves =>
      ParentTakesEffect(s);
      ParentKeepsAdmitted(s, t, i);
    case ChildMoves(n) =>
      ChildTakesEffect(s, n);
      ChildKeepsAdmitted(s, t, n, i);
    case ClientMoves(n) =>
      ClientTakesEffect(s, n);
      ClientKeepsAdmitted(s, t, n, i);
    case Arrive(n) => OtherKeepsAdmitted(s, t, n, i);
    case ClientExits(n) =>
      ExitTakesEffect(s, step);
      OtherKeepsAdmitted(s, t, n, i);
    case ChildExits(n) =>
      ExitTakesEffect(s, step);
      OtherKeepsAdmitted(s, t, n, i);
  }

  /** A client that has not come to STEP-3 is not connected to a child that has ended. */
  lemma UnfinishedHavePartners(s: State, i: nat)
    requires RoundInv(s) && KeyInv(s) && i in s.clients && ClientPos(s.clients[i].pc) <= 12
    ensures PartnerLives(s, i)
  {
    if HasKey(s, i) {
      assert s.round == Some(i) && SyncPos(s) == 10;
    }
  }

  // ---- whole runs ----

  /** Steps of participants in a run from `s`, and entries into the queue. */
  ghost function Worked(s: State, steps: seq<Step>): nat
    decreases |steps|
  {
    if steps == [] || OrderlyNext(s, steps[0]) == None then 0
    else (if Participates(s, steps[0]) then 1 else 0) + Worked(OrderlyNext(s, steps[0]).value, steps[1..])
  }

  ghost function Entered(s: State, steps: seq<Step>): nat
    decreases |steps|
  {
    if steps == [] || OrderlyNext(s, steps[0]) == None then 0
    else (if Enters(s, steps[0]) then 1 else 0) + Entered(OrderlyNext(s, steps[0]).value, steps[1..])
  }

  ghost predicate ChildrenStay(steps: seq<Step>) {
    forall k :: 0 <= k < |steps| ==> !steps[k].ChildExits?
  }

  lemma {:induction false} RunIsProgress(s: State, steps: seq<Step>, t: State)
    requires Inv(s) && OrderlyRun(s, steps, t)
    ensures Worked(s, steps) + Rank(t) <= Rank(s) + 100 * Entered(s, steps)
    ensures t.cliCount + ForksLeft(t) <= s.cliCount + ForksLeft(s) + Entered(s, steps)
    decreases |steps|
  {
    if steps != [] {
      EveryStepIsProgress(s, steps[0]);
      assert Inv(OrderlyNext(s, steps[0]).value) by { StepKeepsInv(s, steps[0]); }
      RunIsProgress(OrderlyNext(s, steps[0]).value, steps[1..], t);
    }
  }

  lemma AdmittedInTurn(s: State, u: State, t: State, i: nat, first: bool, second: bool)
    requires StillAdmitted(s, u, i, first) && StillAdmitted(u, t, i, second)
    ensures StillAdmitted(s, t, i, first || second)
  {}

  lemma ChildrenStayInTurn(steps: seq<Step>)
    requires steps != []
    ensures ChildrenStay(steps) <==> !steps[0].ChildExits? && ChildrenStay(steps[1..])
  {
    assert steps == [steps[0]] + steps[1..];
  }

  lemma {:induction false} RunKeepsAdmitted(s: State, steps: seq<Step>, t: State, i: nat)
    requires Inv(s) && OrderlyRun(s, steps, t)
    ensures StillAdmitted(s, t, i, !ChildrenStay(steps))
    decreases |steps|
  {
    if steps != [] {
      var u := OrderlyNext(s, steps[0]).value;
      StepKeepsAdmitted(s, steps[0], i);
      assert Inv(u) by { StepKeepsInv(s, steps[0]); }
      RunKeepsAdmitted(u, steps[1..], t, i);
      AdmittedInTurn(s, u, t, i, steps[0].ChildExits?, !ChildrenStay(steps[1..]));
      ChildrenStayInTurn(steps);
    }
  }

  /** Client `i` is connected and paired, with a living child where `childLives`. */
  ghost predicate Served(t: State, i: nat, childLives: bool) {
    && i in t.clients && t.clients[i].pc == Connected
    && exists k :: Paired(t, i, k) && (childLives ==> !t.children[k].pc.Dead?)
  }

  lemma AdmittedAreServed(s: State, t: State, i: nat, ends: bool)
    requires RoundInv(s) && KeyInv(s) && ChildrenInv(t) && SegmentInv(t) && KeyInv(t)
    requires Quiescent(t) && Admitted(s, i) && StillAdmitted(s, t, i, ends) && !HasEnded(t, i)
    ensures Served(t, i, ClientPos(s.clients[i].pc) <= 12 && !ends)
  {
    assert t.clients[i].pc == Connected;
    if ClientPos(s.clients[i].pc) <= 12 { UnfinishedHavePartners(s, i); }
    InvPairs(t, i);
  }

  /** Main result, completion. After any orderly run let it go on, orderly, in any way: clients
      arrive, attach, enter and end, children end, and the participants of the handshake move in
      any order. To each entry the participants have only so many moves. Wherever none of them
      has a move left, everyone who had been let in and has not ended is connected and paired,
      with a living child if STEP-3 was still to come and no child has ended since. */
  lemma HandshakesComplete(s0: State, before: seq<Step>, s: State, steps: seq<Step>, t: State)
    requires Init(s0) && OrderlyRun(s0, before, s) && OrderlyRun(s, steps, t)
    ensures Worked(s, steps) <= Rank(s) + 100 * Entered(s, steps)
    ensures s.cliCount + ForksLeft(s) + Entered(s, steps) <= 254 ==>
              || (exists step :: WorkNext(t, step).Some?)
              || forall i :: Admitted(s, i) && !HasEnded(t, i) ==>
                   Served(t, i, ClientPos(s.clients[i].pc) <= 12 && ChildrenStay(steps))
  {
    assert Inv(s) by {
      InitInv(s0);
      RunKeepsInv(s0, before, s);
    }
    RunIsProgress(s, steps, t);
    if s.cliCount + ForksLeft(s) + Entered(s, steps) <= 254 {
      AllAreServed(s, steps, t);
    }
  }

  lemma AllAreServed(s: State, steps: seq<Step>, t: State)
    requires Inv(s) && OrderlyRun(s, steps, t) && t.cliCount + ForksLeft(t) <= 254
    ensures || (exists step :: WorkNext(t, step).Some?)
            || forall i :: Admitted(s, i) && !HasEnded(t, i) ==>
                 Served(t, i, ClientPos(s.clients[i].pc) <= 12 && ChildrenStay(steps))
  {
    assert Inv(t) by { RunKeepsInv(s, steps, t); }
    if Quiescent(t) {
      forall i | Admitted(s, i) && !HasEnded(t, i)
        ensures Served(t, i, ClientPos(s.clients[i].pc) <= 12 && ChildrenStay(steps))
      {
        RunKeepsAdmitted(s, steps, t, i);
        AdmittedAreServed(s, t, i, !ChildrenStay(steps));
      }
    } else {
      CanWork(t);
    }
  }

  lemma CanWork(t: State)
    requires ChildrenInv(t) && RoundInv(t) && !Quiescent(t) && t.cliCount + ForksLeft(t) <= 254
    ensures exists step :: WorkNext(t, step).Some?
  {
    NothingIsStuck(t);
  }
}
