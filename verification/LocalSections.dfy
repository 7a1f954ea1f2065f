/** Local clients in every run, with refused purchases too: each critical section is one command
    on the client's own connection, and the sections come one after the other. */
module LocalSections {
  import opened Types
  import opened Tables
  import opened Database
  import opened Runs
  import opened LocalClients

  // ---- the serial meaning of a log ----

  /** The file, and what the connections with an open transaction see. */
  datatype Shared = Shared(file: Tables, pending: map<int, Tables>)

  /** Client `p`'s connection. */
  function ConnOf(w: Shared, p: int): Conn {
    if p in w.pending then Conn(w.file, w.pending[p], true) else Opened(w.file)
  }

  /** One command of client `p`, alone. */
  function Section(w: Shared, p: int, r: Request): Shared {
    var c := Execute(ConnOf(w, p), r);
    Shared(c.durable, if c.open then w.pending[p := c.working] else w.pending - {p})
  }

  function SectionReply(w: Shared, p: int, r: Request): Option<Reply> {
    Apply(ConnOf(w, p).working, r).1
  }

  /** The commands of a log, one after the other. */
  function Sections(t: Tables, log: seq<Entry>): Shared {
    if log == [] then Shared(t, map[])
    else Section(Sections(t, log[..|log| - 1]), log[|log| - 1].pid, log[|log| - 1].request)
  }

  ghost predicate IsSerial(t: Tables, log: seq<Entry>) {
    forall i :: 0 <= i < |log| ==>
      Some(log[i].reply) == SectionReply(Sections(t, log[..i]), log[i].pid, log[i].request)
  }

  lemma SerialSnoc(t: Tables, log: seq<Entry>, e: Entry)
    requires IsSerial(t, log) && Some(e.reply) == SectionReply(Sections(t, log), e.pid, e.request)
    ensures IsSerial(t, log + [e]) && Sections(t, log + [e]) == Section(Sections(t, log), e.pid, e.request)
  {
    var longer := log + [e];
    assert longer[..|log|] == log;
    forall i | 0 <= i < |log| ensures longer[..i] == log[..i] {}
  }

  // ---- one critical section ----

  /** A client's connection as it is. */
  function Connection(s: State, tx: Tx): Conn {
    Conn(s.file, View(s, tx), tx != Autocommit)
  }

  /** How far client `p`, in its critical section, has come with `r`, begun on the connection `c`. */
  ghost predicate Halfway(c: Conn, r: Request, s: State, p: int)
    requires p in s.clients
  {
    var tx := s.clients[p].tx;
    var now := Connection(s, tx);
    (!c.open ==> c.working == c.durable) &&
    match s.clients[p].pc
    case Idle => false
    case AtMutex(_) => false
    case BeginTx(q) => q == r && r.Purchase? && now == c && tx != Deferred
    case CheckFlight(q) => q == r && r.Purchase? && now == c.(open := true)
    case InsertTicket(q) => q == r && r.Purchase? && HasFlight(c.working, r.flight) && now == c.(open := true) && tx.Snapshot?
    case EndTx(q, a) =>
      && q == r && r.Purchase? && HasFlight(c.working, r.flight) && tx.Snapshot?
      && now == Conn(c.durable, Apply(c.working, r).0, true) && Some(a) == Apply(c.working, r).1
    case OneStatement(q) => q == r && !r.Purchase? && now == c && tx != Deferred
    case Leaving(q, a) => q == r && now == Execute(c, r) && Some(a) == Apply(c.working, r).1 && tx != Deferred
  }

  lemma StatementGoesOn(c: Conn, r: Request, s: State, p: int)
    requires p in s.clients && Halfway(c, r, s, p) && !s.clients[p].pc.Leaving? && Next(s, Moves(p)).Some?
    ensures var u := Next(s, Moves(p)).value; p in u.clients && Halfway(c, r, u, p)
  {}

  // ---- whole runs ----

  /** A client's transaction is the one that its sections so far have left open. */
  ghost predicate Leftover(w: Shared, c: ClientState, p: int) {
    c.tx == if p in w.pending then Snapshot(w.pending[p]) else Autocommit
  }

  ghost predicate SectionInv(t: Tables, s: State) {
    && Exclusive(s) && IsSerial(t, s.log)
    && var w := Sections(t, s.log);
       && (forall p :: p in w.pending ==> p in s.clients)
       && (forall p :: p in s.clients && s.holder != Some(p) ==> Leftover(w, s.clients[p], p))
       && match s.holder
          case None => s.file == w.file && |s.acquired| == |s.log|
          case Some(p) =>
            && p in s.clients && |s.acquired| == |s.log| + 1
            && Halfway(ConnOf(w, p), s.acquired[|s.log|], s, p)
  }

  lemma OutsideGoesOn(t: Tables, s: State, step: Step)
    requires SectionInv(t, s) && Next(s, step).Some? && !step.Moves?
    ensures SectionInv(t, Next(s, step).value)
  {
    ExclusiveStep(s, step);
    assert !Inside(s, step.pid);
  }

  lemma EnterGoesOn(t: Tables, s: State, p: int)
    requires SectionInv(t, s) && p in s.clients && s.clients[p].pc.AtMutex? && Next(s, Moves(p)).Some?
    ensures SectionInv(t, Next(s, Moves(p)).value)
  {
    var u := Next(s, Moves(p)).value;
    ExclusiveStep(s, Moves(p));
    assert Leftover(Sections(t, s.log), s.clients[p], p);
    assert u.holder == Some(p) && u.log == s.log && u.acquired[|s.log|] == s.clients[p].pc.request;
  }

  lemma StatementGoesOnForAll(t: Tables, s: State, p: int)
    requires SectionInv(t, s) && Inside(s, p) && !s.clients[p].pc.Leaving? && Next(s, Moves(p)).Some?
    ensures SectionInv(t, Next(s, Moves(p)).value)
  {
    var u := Next(s, Moves(p)).value;
    ExclusiveStep(s, Moves(p));
    StatementGoesOn(ConnOf(Sections(t, s.log), p), s.acquired[|s.log|], s, p);
    assert u.holder == s.holder && u.log == s.log && u.acquired == s.acquired;
  }

  /** The section that ends is logged, and its connection is what it leaves. */
  lemma LeavingIsSection(t: Tables, s: State, p: int)
    requires SectionInv(t, s) && s.holder == Some(p) && s.clients[p].pc.Leaving?
    ensures var e := Entry(p, s.clients[p].pc.request, s.clients[p].pc.reply);
            var w := Section(Sections(t, s.log), p, e.request);
            && IsSerial(t, s.log + [e]) && Sections(t, s.log + [e]) == w && |s.log + [e]| == |s.acquired|
            && s.file == w.file && forall q :: q in s.clients ==> Leftover(w, s.clients[q], q)
  {
    var e := Entry(p, s.clients[p].pc.request, s.clients[p].pc.reply);
    SerialSnoc(t, s.log, e);
  }

  /** While the lock is free. */
  lemma FreeInv(t: Tables, s: State)
    requires Exclusive(s) && IsSerial(t, s.log) && s.holder == None && |s.acquired| == |s.log|
    requires var w := Sections(t, s.log);
             && s.file == w.file && (forall p :: p in w.pending ==> p in s.clients)
             && forall p :: p in s.clients ==> Leftover(w, s.clients[p], p)
    ensures SectionInv(t, s)
  {}

  lemma LeaveGoesOn(t: Tables, s: State, p: int)
    requires SectionInv(t, s) && p in s.clients && s.clients[p].pc.Leaving? && Next(s, Moves(p)).Some?
    ensures SectionInv(t, Next(s, Moves(p)).value)
  {
    var u := Next(s, Moves(p)).value;
    assert s.holder == Some(p) by { assert Inside(s, p); }
    LeavingIsSection(t, s, p);
    assert Exclusive(u) by { ExclusiveStep(s, Moves(p)); }
    var w := Sections(t, u.log);
    forall q | q in u.clients ensures Leftover(w, u.clients[q], q) {
      assert Leftover(w, s.clients[q], q);
    }
    FreeInv(t, u);
  }

  lemma StepGoesOn(t: Tables, s: State, step: Step)
    requires SectionInv(t, s) && Next(s, step).Some?
    ensures SectionInv(t, Next(s, step).value)
  {
    if !step.Moves? {
      OutsideGoesOn(t, s, step);
    } else if s.clients[step.pid].pc.AtMutex? {
      EnterGoesOn(t, s, step.pid);
    } else if s.clients[step.pid].pc.Leaving? {
      LeaveGoesOn(t, s, step.pid);
    } else {
      StatementGoesOnForAll(t, s, step.pid);
    }
  }

  lemma {:induction false} RunGoesOn(t: Tables, s0: State, steps: seq<Step>, s: State)
    requires SectionInv(t, s0) && Reaches(s0, steps, s)
    ensures SectionInv(t, s)
    decreases |steps|
  {
    if steps != [] {
      StepGoesOn(t, s0, steps[0]);
      RunGoesOn(t, Next(s0, steps[0]).value, steps[1..], s);
    }
  }

  /** Main result, for every run. The answers are those of the commands one after the other, each
      on its client's own connection, whatever transactions refused purchases have left open;
      and while nobody is in the critical section the file and every connection are what those
      commands leave. */
  lemma RunsAreSections(t: Tables, steps: seq<Step>, s: State)
    requires Reaches(Initial(t), steps, s)
    ensures IsSerial(t, s.log)
    ensures s.holder == None ==>
              && s.file == Sections(t, s.log).file
              && forall p :: p in s.clients ==> Connection(s, s.clients[p].tx) == ConnOf(Sections(t, s.log), p)
  {
    RunGoesOn(t, Initial(t), steps, s);
  }

  lemma {:induction false} LogGrows(s0: State, steps: seq<Step>, s: State)
    requires Reaches(s0, steps, s)
    ensures |s0.log| <= |s.log| && s.log[..|s0.log|] == s0.log
    decreases |steps|
  {
    if steps != [] {
      LogGrows(Next(s0, steps[0]).value, steps[1..], s);
    }
  }

  /** Main result, for one critical section, with other clients' steps in between. Client `p` is
      about to take the free lock for `r` in `s`; in `u` it is about to leave, the lock having
      been taken once since. Then its connection has executed that one command. */
  lemma CriticalSectionIsOneCommand(t: Tables, before: seq<Step>, s: State, p: int, more: seq<Step>, u: State)
    requires Reaches(Initial(t), before, s) && s.holder == None && p in s.clients && s.clients[p].pc.AtMutex?
    requires Reaches(s, more, u) && u.holder == Some(p) && p in u.clients && u.clients[p].pc.Leaving?
    requires u.acquired == s.acquired + [s.clients[p].pc.request]
    ensures var r := s.clients[p].pc.request;
            && u.clients[p].pc.request == r
            && Connection(u, u.clients[p].tx) == Execute(Connection(s, s.clients[p].tx), r)
            && Some(u.clients[p].pc.reply) == Apply(View(s, s.clients[p].tx), r).1
  {
    RunGoesOn(t, Initial(t), before, s);
    RunGoesOn(t, s, more, u);
    LogGrows(s, more, u);
    assert u.log == s.log;
    assert Leftover(Sections(t, s.log), s.clients[p], p);
  }

  // ---- every critical section ends ----

  /** What a client is doing is a command that has an answer. */
  ghost predicate Proper(s: State) {
    forall p :: p in s.clients && !s.clients[p].pc.Idle? ==> !s.clients[p].pc.request.Exit? && !s.clients[p].pc.request.Connect?
  }

  lemma {:induction false} RunStaysProper(s0: State, steps: seq<Step>, s: State)
    requires Proper(s0) && Reaches(s0, steps, s)
    ensures Proper(s)
    decreases |steps|
  {
    if steps != [] {
      RunStaysProper(Next(s0, steps[0]).value, steps[1..], s);
    }
  }

  /** Statements that the critical section still has at most, and its end. */
  function StatementsLeft(pc: Pc): nat {
    match pc
    case Idle => 0
    case AtMutex(_) => 6
    case BeginTx(_) => 5
    case CheckFlight(_) => 4
    case InsertTicket(_) => 3
    case EndTx(_, _) => 2
    case OneStatement(_) => 2
    case Leaving(_, _) => 1
  }

  /** The owner of the lock is never kept from moving, and any client can ask for it. */
  lemma OwnerMoves(t: Tables, steps: seq<Step>, s: State, p: int)
    requires Reaches(Initial(t), steps, s) && s.holder == Some(p)
    ensures p in s.clients && Next(s, Moves(p)).Some?
    ensures var u := Next(s, Moves(p)).value;
            if s.clients[p].pc.Leaving? then u.holder == None && |u.log| == |s.log| + 1
            else p in u.clients && StatementsLeft(u.clients[p].pc) < StatementsLeft(s.clients[p].pc) && u.holder == Some(p)
  {
    assert SectionInv(t, s) by { RunGoesOn(t, Initial(t), steps, s); }
    assert Proper(s) by { RunStaysProper(Initial(t), steps, s); }
    OwnerStep(ConnOf(Sections(t, s.log), p), s.acquired[|s.log|], s, p);
  }

  lemma OwnerStep(c: Conn, r: Request, s: State, p: int)
    requires p in s.clients && Halfway(c, r, s, p) && s.holder == Some(p)
    requires !s.clients[p].pc.request.Exit? && !s.clients[p].pc.request.Connect?
    ensures Next(s, Moves(p)).Some?
    ensures var u := Next(s, Moves(p)).value;
            if s.clients[p].pc.Leaving? then u.holder == None && |u.log| == |s.log| + 1
            else p in u.clients && StatementsLeft(u.clients[p].pc) < StatementsLeft(s.clients[p].pc) && u.holder == Some(p)
  {}

  lemma FreeLockIsTaken(s: State, p: int)
    requires s.holder == None && p in s.clients && s.clients[p].pc.AtMutex?
    ensures Next(s, Moves(p)).Some? && Next(s, Moves(p)).value.holder == Some(p)
  {}

  lemma AnythingCanBeTyped(s: State, p: int, r: Request)
    requires p in s.clients && s.clients[p].pc == Idle && !r.Exit? && !r.Connect?
    ensures Next(s, Types(p, r)).Some? && Next(s, Types(p, r)).value.clients[p].pc == AtMutex(r)
  {}

  /** Main result, progress. The owner of the lock, moving alone, gives it back after at most five
      moves, with its command executed and logged. */
  lemma {:induction false} SectionEnds(t: Tables, before: seq<Step>, s: State, p: int) returns (more: seq<Step>, u: State)
    requires Reaches(Initial(t), before, s) && s.holder == Some(p) && p in s.clients
    ensures |more| <= StatementsLeft(s.clients[p].pc) <= 5 && Reaches(s, more, u)
    ensures u.holder == None && |u.log| == |s.log| + 1 && u.log[|s.log|].pid == p
    decreases StatementsLeft(s.clients[p].pc)
  {
    OwnerMoves(t, before, s, p);
    ExclusiveRun(Initial(t), before, s);
    assert Inside(s, p);
    var steps, v := Extend(Next, Initial(t), before, s, Moves(p));
    if s.clients[p].pc.Leaving? {
      more, u := [Moves(p)], v;
      assert more[1..] == [];
    } else {
      var rest;
      rest, u := SectionEnds(t, steps, v, p);
      more := [Moves(p)] + rest;
      assert more[1..] == rest;
      assert v.log == s.log;
    }
  }
}
