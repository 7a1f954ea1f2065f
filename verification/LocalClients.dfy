/** client/localclient.c: clients without a server. Each has its own connection to the database
    file and runs a command's SQL statements between fmutex_enter and fmutex_leave; the
    statements of different clients interleave in any order. */
module LocalClients {
  import opened Types
  import opened Tables
  import opened Durability
  import opened Runs

  /** A connection's transaction. BEGIN is deferred: the snapshot is taken by the first read. */
  datatype Tx = Autocommit | Deferred | Snapshot(tables: Tables)

  /** Where a client is; each step from BeginTx on is one SQL statement. */
  datatype Pc =
    | Idle
    | AtMutex(request: Request)
    | BeginTx(request: Request)
    | CheckFlight(request: Request)
    | InsertTicket(request: Request)
    | EndTx(request: Request, reply: Reply)
    | OneStatement(request: Request)
    | Leaving(request: Request, reply: Reply)

  datatype ClientState = ClientState(pc: Pc, tx: Tx)
  datatype Entry = Entry(pid: int, request: Request, reply: Reply)

  /** `holder` is the owner of the write lock on the mutex file; `acquired` lists the requests
      in the order in which their clients got the lock, `log` the finished ones. */
  datatype State = State(
    file: Tables, holder: Option<int>, clients: map<int, ClientState>,
    acquired: seq<Request>, log: seq<Entry>)

  datatype Step = Opens(pid: int) | Types(pid: int, request: Request) | Moves(pid: int)

  function Initial(t: Tables): State {
    State(t, None, map[], [], [])
  }

  function View(s: State, tx: Tx): Tables {
    if tx.Snapshot? then tx.tables else s.file
  }

  function With(s: State, pid: int, c: ClientState): State {
    s.(clients := s.clients[pid := c])
  }

  /** A statement that changes the tables: outside a transaction it commits. */
  function Written(s: State, pid: int, tx: Tx, t: Tables, pc: Pc): State {
    if tx == Autocommit then With(s, pid, ClientState(pc, Autocommit)).(file := t)
    else With(s, pid, ClientState(pc, Snapshot(t)))
  }

  function ClientNext(s: State, p: int): Option<State>
    requires p in s.clients
  {
    var tx := s.clients[p].tx;
    match s.clients[p].pc
    case Idle => None
    case AtMutex(r) =>
      if s.holder != None then None
      else Some(With(s, p, ClientState(if r.Purchase? then BeginTx(r) else OneStatement(r), tx))
                .(holder := Some(p), acquired := s.acquired + [r]))
    case BeginTx(r) => Some(With(s, p, ClientState(CheckFlight(r), if tx == Autocommit then Deferred else tx)))
    case CheckFlight(r) =>
      var seen := View(s, tx);
      var tx' := if tx == Deferred then Snapshot(s.file) else tx;
      if !r.Purchase? then None
      else if HasFlight(seen, r.flight) then Some(With(s, p, ClientState(InsertTicket(r), tx')))
      else Some(With(s, p, ClientState(Leaving(r, Seat(-1)), tx')))
    case InsertTicket(r) =>
      if !r.Purchase? then None
      else
        var seen := View(s, tx);
        var id := seen.ticketSeq + 1;
        Some(Written(s, p, tx, seen.(tickets := seen.tickets[id := r.flight], ticketSeq := id), EndTx(r, Seat(ToInt32(id)))))
    case EndTx(r, a) =>
      if tx.Snapshot? then Some(With(s, p, ClientState(Leaving(r, a), Autocommit)).(file := tx.tables))
      else Some(With(s, p, ClientState(Leaving(r, a), Autocommit)))
    case OneStatement(r) =>
      var (t, reply) := Apply(View(s, tx), r);
      if reply == None then None else Some(Written(s, p, tx, t, Leaving(r, reply.value)))
    case Leaving(r, a) =>
      Some(With(s, p, ClientState(Idle, tx)).(holder := None, log := s.log + [Entry(p, r, a)]))
  }

  function Next(s: State, step: Step): Option<State> {
    match step
    case Opens(p) => if p in s.clients then None else Some(With(s, p, ClientState(Idle, Autocommit)))
    case Types(p, r) =>
      if p in s.clients && s.clients[p].pc == Idle && !r.Exit? && !r.Connect? then
        Some(With(s, p, s.clients[p].(pc := AtMutex(r))))
      else None
    case Moves(p) => if p in s.clients then ClientNext(s, p) else None
  }

  ghost predicate Reaches(s0: State, steps: seq<Step>, s: State) {
    IsRun(Next, s0, steps, s)
  }

  // ---- mutual exclusion, in every run ----

  /** Between fmutex_enter and fmutex_leave. */
  predicate Inside(s: State, p: int) {
    p in s.clients && !s.clients[p].pc.Idle? && !s.clients[p].pc.AtMutex?
  }

  ghost predicate Exclusive(s: State) {
    forall p :: Inside(s, p) <==> s.holder == Some(p)
  }

  lemma ExclusiveStep(s: State, step: Step)
    requires Exclusive(s) && Next(s, step).Some?
    ensures Exclusive(Next(s, step).value)
  {
    var u := Next(s, step).value;
    forall p ensures Inside(u, p) <==> u.holder == Some(p) {
      assert Inside(s, p) <==> s.holder == Some(p);
      if step.Moves? {
        assert Inside(s, step.pid) <==> s.holder == Some(step.pid);
      }
    }
  }

  lemma {:induction false} ExclusiveRun(s0: State, steps: seq<Step>, s: State)
    requires Exclusive(s0) && Reaches(s0, steps, s)
    ensures Exclusive(s)
    decreases |steps|
  {
    if steps != [] {
      ExclusiveStep(s0, steps[0]);
      ExclusiveRun(Next(s0, steps[0]).value, steps[1..], s);
    }
  }

  /** In every run at most one client is in the critical section: the owner of the lock. */
  lemma MutualExclusion(t: Tables, steps: seq<Step>, s: State, p: int, q: int)
    requires Reaches(Initial(t), steps, s) && Inside(s, p) && Inside(s, q)
    ensures p == q && s.holder == Some(p)
  {
    ExclusiveRun(Initial(t), steps, s);
  }

  // ---- serializability ----

  /** The assumption: no purchase names a flight that its connection does not see. */
  predicate Serves(s: State, step: Step) {
    var checks := step.Moves? && step.pid in s.clients && s.clients[step.pid].pc.CheckFlight?
                  && s.clients[step.pid].pc.request.Purchase?;
    checks ==> HasFlight(View(s, s.clients[step.pid].tx), s.clients[step.pid].pc.request.flight)
  }

  function ServingNext(s: State, step: Step): Option<State> {
    if Serves(s, step) then Next(s, step) else None
  }

  ghost predicate ServingRun(s0: State, steps: seq<Step>, s: State) {
    IsRun(ServingNext, s0, steps, s)
  }

  predicate Accepted(base: Tables, r: Request) {
    r.Purchase? ==> HasFlight(base, r.flight)
  }

  /** How far the lock's owner has come with `r`, which started on the tables `base`. */
  ghost predicate Underway(file: Tables, c: ClientState, base: Tables, r: Request) {
    match c.pc
    case Idle => false
    case AtMutex(_) => false
    case BeginTx(q) => q == r && r.Purchase? && file == base && c.tx == Autocommit
    case CheckFlight(q) => q == r && r.Purchase? && file == base && c.tx == Deferred
    case InsertTicket(q) => q == r && r.Purchase? && file == base && c.tx == Snapshot(base) && HasFlight(base, r.flight)
    case EndTx(q, a) =>
      q == r && file == base && c.tx == Snapshot(Apply(base, r).0) && Some(a) == Apply(base, r).1 && Accepted(base, r)
    case OneStatement(q) => q == r && !r.Purchase? && file == base && c.tx == Autocommit
    case Leaving(q, a) =>
      q == r && file == Apply(base, r).0 && c.tx == Autocommit && Some(a) == Apply(base, r).1 && Accepted(base, r)
  }

  /** The log is the serial run of the first requests that got the lock; none was refused. */
  ghost predicate SerialLog(t: Tables, acquired: seq<Request>, log: seq<Entry>) {
    && |log| <= |acquired|
    && (forall i :: 0 <= i < |log| ==> !Refused(t, acquired, i))
    && forall i :: 0 <= i < |log| ==> log[i].request == acquired[i] && Some(log[i].reply) == ReplyAt(t, acquired, i)
  }

  ghost predicate Inv(t: Tables, s: State) {
    && Exclusive(s) && SerialLog(t, s.acquired, s.log)
    && (forall p :: p in s.clients && !Inside(s, p) ==> s.clients[p].tx == Autocommit)
    && match s.holder
       case None => |s.log| == |s.acquired| && s.file == After(t, s.acquired)
       case Some(p) =>
         && p in s.clients && |s.acquired| == |s.log| + 1
         && Underway(s.file, s.clients[p], After(t, s.acquired[..|s.log|]), s.acquired[|s.log|])
  }

  lemma EnterKeepsInv(t: Tables, s: State, p: int)
    requires Inv(t, s) && p in s.clients && s.clients[p].pc.AtMutex? && Next(s, Moves(p)).Some?
    ensures Inv(t, Next(s, Moves(p)).value)
  {
    var u := Next(s, Moves(p)).value;
    var r := s.clients[p].pc.request;
    ExclusiveStep(s, Moves(p));
    assert u.acquired[..|s.log|] == s.acquired;
    assert !Inside(s, p);
    forall i | 0 <= i < |s.log|
      ensures ReplyAt(t, u.acquired, i) == ReplyAt(t, s.acquired, i) && Refused(t, u.acquired, i) == Refused(t, s.acquired, i)
    {
      ReplyAtPrefix(t, s.acquired, r, i);
      PrefixStatus(t, u.acquired, |s.acquired|, i);
    }
    assert forall q :: q in u.clients && !Inside(u, q) ==> !Inside(s, q) && u.clients[q] == s.clients[q];
  }

  lemma LeaveKeepsInv(t: Tables, s: State, p: int)
    requires Inv(t, s) && p in s.clients && s.clients[p].pc.Leaving? && Next(s, Moves(p)).Some?
    ensures Inv(t, Next(s, Moves(p)).value)
  {
    var u := Next(s, Moves(p)).value;
    ExclusiveStep(s, Moves(p));
    assert Inside(s, p);
    assert s.acquired == s.acquired[..|s.log|] + [s.acquired[|s.log|]];
    AfterSnoc(t, s.acquired[..|s.log|], s.acquired[|s.log|]);
    assert forall q :: q in u.clients && q != p && !Inside(u, q) ==> !Inside(s, q) && u.clients[q] == s.clients[q];
  }

  lemma StatementKeepsInv(t: Tables, s: State, p: int)
    requires Inv(t, s) && Inside(s, p) && !s.clients[p].pc.Leaving? && Next(s, Moves(p)).Some? && Serves(s, Moves(p))
    ensures Inv(t, Next(s, Moves(p)).value)
  {
    var u := Next(s, Moves(p)).value;
    ExclusiveStep(s, Moves(p));
    assert forall q :: q in u.clients && !Inside(u, q) ==> !Inside(s, q) && u.clients[q] == s.clients[q];
  }

  lemma StepKeepsInv(t: Tables, s: State, step: Step)
    requires Inv(t, s) && Next(s, step).Some? && Serves(s, step)
    ensures Inv(t, Next(s, step).value)
  {
    match step
    case Opens(p) => OutsideKeepsInv(t, s, step, p);
    case Types(p, _) => OutsideKeepsInv(t, s, step, p);
    case Moves(p) =>
      if s.clients[p].pc.AtMutex? { EnterKeepsInv(t, s, p); }
      else if s.clients[p].pc.Leaving? { LeaveKeepsInv(t, s, p); }
      else { StatementKeepsInv(t, s, p); }
  }

  lemma OutsideKeepsInv(t: Tables, s: State, step: Step, p: int)
    requires Inv(t, s) && Next(s, step).Some? && !step.Moves? && step.pid == p
    ensures Inv(t, Next(s, step).value)
  {
    var u := Next(s, step).value;
    ExclusiveStep(s, step);
    assert !Inside(s, p) && !Inside(u, p);
    assert forall q :: q != p ==> (Inside(u, q) <==> Inside(s, q));
  }

  lemma {:induction false} RunKeepsInv(t: Tables, s0: State, steps: seq<Step>, s: State)
    requires Inv(t, s0) && ServingRun(s0, steps, s)
    ensures Inv(t, s)
    decreases |steps|
  {
    if steps != [] {
      StepKeepsInv(t, s0, steps[0]);
      RunKeepsInv(t, Next(s0, steps[0]).value, steps[1..], s);
    }
  }

  /** Main result. As long as no purchase names a missing flight, any interleaving of the
      clients' SQL statements gives the answers and the file of the serial run in the order
      in which the lock was taken, and a client that leaves is in autocommit mode. */
  lemma Serializable(t: Tables, steps: seq<Step>, s: State)
    requires ServingRun(Initial(t), steps, s)
    ensures forall i :: 0 <= i < |s.log| ==>
              i < |s.acquired| && s.log[i].request == s.acquired[i] && Some(s.log[i].reply) == ReplyAt(t, s.acquired, i)
    ensures s.holder == None ==> |s.log| == |s.acquired| && s.file == After(t, s.acquired)
    ensures forall p :: p in s.clients && (!Inside(s, p) || s.clients[p].pc.Leaving?) ==> s.clients[p].tx == Autocommit
  {
    RunKeepsInv(t, Initial(t), steps, s);
    forall p | p in s.clients && s.clients[p].pc.Leaving? ensures s.clients[p].tx == Autocommit {
      assert Inside(s, p);
    }
  }

  // ---- the assumption is exact ----

  /** What Serves asks at the check of the client in the critical section is whether the
      sequential specification, after the requests before this one, has the flight. */
  lemma ServesIsSpecified(t: Tables, s: State, p: int)
    requires Inv(t, s) && p in s.clients && s.clients[p].pc.CheckFlight?
    ensures |s.log| < |s.acquired| && s.acquired[|s.log|] == s.clients[p].pc.request
    ensures Serves(s, Moves(p)) <==> !Refused(t, s.acquired, |s.log|)
  {
    assert Inside(s, p);
  }

  /** A client outside its critical section, or about to leave it, has no transaction open. */
  ghost predicate AllAutocommit(s: State) {
    forall p :: p in s.clients && (!Inside(s, p) || s.clients[p].pc.Leaving?) ==> s.clients[p].tx == Autocommit
  }

  ghost predicate AlwaysAutocommit(s0: State, steps: seq<Step>)
    decreases |steps|
  {
    && AllAutocommit(s0)
    && (steps == [] || (Next(s0, steps[0]).Some? && AlwaysAutocommit(Next(s0, steps[0]).value, steps[1..])))
  }

  lemma InvIsAutocommit(t: Tables, s: State)
    requires Inv(t, s)
    ensures AllAutocommit(s)
  {
    forall p | p in s.clients && s.clients[p].pc.Leaving? ensures s.clients[p].tx == Autocommit {
      assert Inside(s, p);
    }
  }

  /** The check decides: the client leaves its critical section with a transaction open exactly
      when the flight is missing. */
  lemma RefusalLeavesTransactionOpen(s: State, p: int)
    requires p in s.clients && s.clients[p].pc.CheckFlight? && s.clients[p].pc.request.Purchase?
    requires s.clients[p].tx != Autocommit
    ensures var u := Next(s, Moves(p)).value;
            u.clients[p].pc.Leaving? && u.clients[p].tx != Autocommit <==> !Serves(s, Moves(p))
  {}

  lemma RefusalIsSeen(t: Tables, s: State, step: Step)
    requires Inv(t, s) && Next(s, step).Some? && !Serves(s, step)
    ensures !AllAutocommit(Next(s, step).value)
  {
    assert Inside(s, step.pid);
    RefusalLeavesTransactionOpen(s, step.pid);
  }

  lemma {:induction false} AutocommitIffServing(t: Tables, s0: State, steps: seq<Step>, s: State)
    requires Inv(t, s0) && Reaches(s0, steps, s)
    ensures AlwaysAutocommit(s0, steps) <==> ServingRun(s0, steps, s)
    decreases |steps|
  {
    InvIsAutocommit(t, s0);
    if steps != [] {
      var u := Next(s0, steps[0]).value;
      if Serves(s0, steps[0]) {
        StepKeepsInv(t, s0, steps[0]);
        AutocommitIffServing(t, u, steps[1..], s);
      } else {
        RefusalIsSeen(t, s0, steps[0]);
      }
    }
  }

  /** Requests keep their place, and so does a refusal. */
  lemma {:induction false} AcquiredGrows(s0: State, steps: seq<Step>, s: State)
    requires Reaches(s0, steps, s)
    ensures |s0.acquired| <= |s.acquired| && s.acquired[..|s0.acquired|] == s0.acquired
    decreases |steps|
  {
    if steps != [] {
      AcquiredGrows(Next(s0, steps[0]).value, steps[1..], s);
    }
  }

  ghost predicate SomeRefused(t: Tables, rs: seq<Request>) {
    exists i :: 0 <= i < |rs| && Refused(t, rs, i)
  }

  lemma {:induction false} ServingOrRefused(t: Tables, s0: State, steps: seq<Step>, s: State)
    requires Inv(t, s0) && Reaches(s0, steps, s)
    ensures ServingRun(s0, steps, s) || SomeRefused(t, s.acquired)
    decreases |steps|
  {
    if steps != [] {
      var step := steps[0];
      if Serves(s0, step) {
        StepKeepsInv(t, s0, step);
        ServingOrRefused(t, Next(s0, step).value, steps[1..], s);
      } else {
        ServesIsSpecified(t, s0, step.pid);
        AcquiredGrows(s0, steps, s);
        PrefixStatus(t, s.acquired, |s0.acquired|, |s0.log|);
      }
    }
  }

  /** Main result, exactness. In any run everybody always leaves the critical section in
      autocommit mode exactly when the run is serving; and, when nobody is in the critical
      section, exactly when the sequential specification refuses none of the purchases, in the
      order in which the lock was taken. */
  lemma ServingIsExact(t: Tables, steps: seq<Step>, s: State)
    requires Reaches(Initial(t), steps, s)
    ensures AlwaysAutocommit(Initial(t), steps) <==> ServingRun(Initial(t), steps, s)
    ensures s.holder == None ==> (ServingRun(Initial(t), steps, s) <==> !SomeRefused(t, s.acquired))
  {
    AutocommitIffServing(t, Initial(t), steps, s);
    ServingOrRefused(t, Initial(t), steps, s);
    if ServingRun(Initial(t), steps, s) {
      RunKeepsInv(t, Initial(t), steps, s);
    }
  }

  // ---- a run that is not serving ----

  /** Client `p` gets the free lock for request `r`. */
  lemma Enters(s0: State, before: seq<Step>, s: State, p: int, r: Request) returns (steps: seq<Step>, t: State)
    requires Reaches(s0, before, s) && s.holder == None && p in s.clients && s.clients[p].pc == Idle
    requires !r.Exit? && !r.Connect?
    ensures Reaches(s0, steps, t)
    ensures t == s.(holder := Some(p), acquired := s.acquired + [r], clients := t.clients)
    ensures t.clients == s.clients[p := ClientState(if r.Purchase? then BeginTx(r) else OneStatement(r), s.clients[p].tx)]
  {
    steps, t := Extend(Next, s0, before, s, Types(p, r));
    steps, t := Extend(Next, s0, steps, t, Moves(p));
  }

  lemma Leaves(s0: State, before: seq<Step>, s: State, p: int) returns (steps: seq<Step>, t: State)
    requires Reaches(s0, before, s) && p in s.clients && s.clients[p].pc.Leaving?
    ensures Reaches(s0, steps, t)
    ensures var pc := s.clients[p].pc;
            t == s.(holder := None, log := s.log + [Entry(p, pc.request, pc.reply)],
                    clients := s.clients[p := ClientState(Idle, s.clients[p].tx)])
  {
    steps, t := Extend(Next, s0, before, s, Moves(p));
  }

  /** Client `p`, in autocommit mode and alone, tries a flight that does not exist. */
  lemma RefusedPurchase(s0: State, before: seq<Step>, s: State, p: int, f: int) returns (steps: seq<Step>, t: State)
    requires Reaches(s0, before, s) && s.holder == None && p in s.clients && s.clients[p] == ClientState(Idle, Autocommit)
    requires !HasFlight(s.file, f)
    ensures Reaches(s0, steps, t)
    ensures t.file == s.file && t.holder == None && t.clients == s.clients[p := ClientState(Idle, Snapshot(s.file))]
    ensures t.acquired == s.acquired + [Purchase(f)] && t.log == s.log + [Entry(p, Purchase(f), Seat(-1))]
  {
    steps, t := Enters(s0, before, s, p, Purchase(f));
    steps, t := Extend(Next, s0, steps, t, Moves(p));
    steps, t := Extend(Next, s0, steps, t, Moves(p));
    steps, t := Leaves(s0, steps, t, p);
  }

  /** Client `p`, alone, runs a command of one statement on what it sees. */
  lemma SingleStatement(s0: State, before: seq<Step>, s: State, p: int, r: Request) returns (steps: seq<Step>, t: State)
    requires Reaches(s0, before, s) && s.holder == None && p in s.clients && s.clients[p].pc == Idle
    requires !r.Purchase? && !r.Exit? && !r.Connect?
    ensures Reaches(s0, steps, t) && t.holder == None && t.acquired == s.acquired + [r]
    ensures var (after, a) := Apply(View(s, s.clients[p].tx), r);
            && a.Some? && t.log == s.log + [Entry(p, r, a.value)]
            && t.file == (if s.clients[p].tx == Autocommit then after else s.file)
            && t.clients == s.clients[p := ClientState(Idle, if s.clients[p].tx == Autocommit then Autocommit else Snapshot(after))]
  {
    steps, t := Enters(s0, before, s, p, r);
    steps, t := Extend(Next, s0, steps, t, Moves(p));
    steps, t := Leaves(s0, steps, t, p);
  }

  /** The first half of the run below. */
  lemma RefusedThenAdded() returns (steps: seq<Step>, s: State)
    ensures Reaches(Initial(EMPTY), steps, s) && s.holder == None && s.file == EMPTY
    ensures s.acquired == [Purchase(7), AddFlight(0, 1, 2)]
    ensures s.log == [Entry(1, Purchase(7), Seat(-1)), Entry(1, AddFlight(0, 1, 2), Added(1))]
    ensures 2 in s.clients && s.clients[2] == ClientState(Idle, Autocommit)
  {
    steps, s := Extend(Next, Initial(EMPTY), [], Initial(EMPTY), Opens(1));
    steps, s := Extend(Next, Initial(EMPTY), steps, s, Opens(2));
    steps, s := RefusedPurchase(Initial(EMPTY), steps, s, 1, 7);
    steps, s := SingleStatement(Initial(EMPTY), steps, s, 1, AddFlight(0, 1, 2));
  }

  /** A run that is not serializable. Client 1 tries flight 7, which does not exist, and then
      adds a flight and is told its number; client 2 asks for all flights and is told there are
      none. */
  lemma RefusalBreaksSerializability() returns (steps: seq<Step>, s: State)
    ensures Reaches(Initial(EMPTY), steps, s) && s.holder == None
    ensures s.acquired == [Purchase(7), AddFlight(0, 1, 2), Consult(-1, -1)]
    ensures |s.log| == 3 && s.log[1] == Entry(1, AddFlight(0, 1, 2), Added(1))
    ensures s.log[2] == Entry(2, Consult(-1, -1), Flights([]))
    ensures Some(s.log[2].reply) != ReplyAt(EMPTY, s.acquired, 2)
  {
    steps, s := RefusedThenAdded();
    steps, s := SingleStatement(Initial(EMPTY), steps, s, 2, Consult(-1, -1));
    SerialAnswer();
  }

  /** In the serial order client 2 would have seen the flight. */
  lemma SerialAnswer()
    ensures ReplyAt(EMPTY, [Purchase(7), AddFlight(0, 1, 2), Consult(-1, -1)], 2) == Some(Flights([Flight(1, 0, 1, 2)]))
  {
    var rs := [Purchase(7), AddFlight(0, 1, 2), Consult(-1, -1)];
    assert rs[..2] == [Purchase(7), AddFlight(0, 1, 2)];
    assert rs[..2][..1] == [Purchase(7)];
    assert rs[..2][..1][..0] == [];
    assert After(EMPTY, [Purchase(7)]) == EMPTY;
    assert After(EMPTY, rs[..2]).flights == [Flight(1, 0, 1, 2)];
    assert [Flight(1, 0, 1, 2)][..0] == [];
  }
}
