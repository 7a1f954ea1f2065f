/** Runs that show what Handshake.dfy allows and what Disorder.dfy forbids. */
module Witnesses {
  import opened Types
  import opened Semaphores
  import opened Runs
  import opened Rendezvous
  import opened Admission
  import opened Handshake

  const FIRST := multiset{Client(0)}

  function Two(c0: ClientState, c1: ClientState): map<nat, ClientState> {
    map[0 := c0, 1 := c1]
  }

  lemma TwoUpdated()
    ensures forall a, b, c :: Two(a, b)[0 := c] == Two(c, b)
    ensures forall a, b, c :: Two(a, b)[1 := c] == Two(a, c)
  {}

  /** Two clients start and the first one enters the queue; the parent resets. */
  lemma FirstClientEnters(s0: State) returns (steps: seq<Step>, s: State)
    requires Init(s0)
    ensures OrderlyRun(s0, steps, s)
    ensures s == State(Set(0), Set(0), Sem(0, FIRST), Set(0), ZERO, AwaitStep0, 0, map[],
                       Two(ClientState(Step0, None), ClientState(Attach, None)), map[], None)
  {
    TwoUpdated();
    steps, s := Extend(OrderlyNext, s0, [], s0, Arrive(0));
    steps, s := Extend(OrderlyNext, s0, steps, s, ClientMoves(0));
    steps, s := Extend(OrderlyNext, s0, steps, s, ClientMoves(0));
    steps, s := Extend(OrderlyNext, s0, steps, s, Arrive(1));
    steps, s := Extend(OrderlyNext, s0, steps, s, ParentMoves);
    steps, s := Extend(OrderlyNext, s0, steps, s, ParentMoves);
  }

  /** ... which writes its request. */
  lemma FirstClientAsks(s0: State) returns (steps: seq<Step>, s: State)
    requires Init(s0)
    ensures OrderlyRun(s0, steps, s)
    ensures s == State(Set(2), Set(0), Sem(0, FIRST), Set(0), Page(168, OP_CONNECT, None), AwaitStep0, 0, map[],
                       Two(ClientState(AwaitStep2, None), ClientState(Attach, None)), map[], Some(0))
  {
    TwoUpdated();
    steps, s := FirstClientEnters(s0);
    steps, s := Extend(OrderlyNext, s0, steps, s, ClientMoves(0));
    steps, s := Extend(OrderlyNext, s0, steps, s, ClientMoves(0));
    steps, s := Extend(OrderlyNext, s0, steps, s, ClientMoves(0));
    steps, s := Extend(OrderlyNext, s0, steps, s, ClientMoves(0));
  }

  /** The state that AttachDuringRequestIsFatal starts from. */
  lemma RequestWindowIsReachable(s0: State) returns (steps: seq<Step>, s: State)
    requires Init(s0)
    ensures OrderlyRun(s0, steps, s) && LeftSet(s) == {}
    ensures 1 in s.clients && s.clients[1].pc == Attach && s.round == Some(0) && RequestPending(s)
  {
    steps, s := FirstClientAsks(s0);
  }

  /** The child reads the request and answers with a key. */
  lemma ChildAnswers(s0: State) returns (steps: seq<Step>, s: State)
    requires Init(s0)
    ensures OrderlyRun(s0, steps, s)
    ensures s == State(Sem(0, multiset{Parent, Child(1)}), Set(0), Sem(0, FIRST), Set(0),
                       Page(168, OP_CONNECT, Some(1)), AwaitSync, 1, map[1 := ChildState(CreateSegment, Some(1))],
                       Two(ClientState(AwaitStep2, None), ClientState(Attach, None)), map[], Some(0))
  {
    TwoUpdated();
    steps, s := FirstClientAsks(s0);
    steps, s := Extend(OrderlyNext, s0, steps, s, ParentMoves);
    steps, s := Extend(OrderlyNext, s0, steps, s, ParentMoves);
    steps, s := Extend(OrderlyNext, s0, steps, s, ChildMoves(1));
    steps, s := Extend(OrderlyNext, s0, steps, s, ChildMoves(1));
    steps, s := Extend(OrderlyNext, s0, steps, s, ChildMoves(1));
    steps, s := Extend(OrderlyNext, s0, steps, s, ChildMoves(1));
  }

  /** The state that AttachDuringKeyIsFatal starts from. */
  lemma KeyWindowIsReachable(s0: State) returns (steps: seq<Step>, s: State)
    requires Init(s0)
    ensures OrderlyRun(s0, steps, s) && LeftSet(s) == {}
    ensures 1 in s.clients && s.clients[1].pc == Attach && s.round == Some(0) && KeyPending(s)
  {
    steps, s := ChildAnswers(s0);
  }

  lemma ChildAttaches(s0: State) returns (steps: seq<Step>, s: State)
    requires Init(s0)
    ensures OrderlyRun(s0, steps, s)
    ensures s == State(Sem(0, multiset{Parent, Child(1)}), Set(0), Sem(0, FIRST), Set(0),
                       Page(168, OP_CONNECT, Some(1)), AwaitSync, 1, map[1 := ChildState(PairResetClient, Some(1))],
                       Two(ClientState(AwaitStep2, None), ClientState(Attach, None)),
                       map[1 := Segment(true, Pair(None, None))], Some(0))
  {
    steps, s := ChildAnswers(s0);
    steps, s := Extend(OrderlyNext, s0, steps, s, ChildMoves(1));
    steps, s := Extend(OrderlyNext, s0, steps, s, ChildMoves(1));
    steps, s := Extend(OrderlyNext, s0, steps, s, ChildMoves(1));
  }

  lemma ChildPrepares(s0: State) returns (steps: seq<Step>, s: State)
    requires Init(s0)
    ensures OrderlyRun(s0, steps, s)
    ensures s == State(Sem(0, multiset{Parent, Child(1)}), Set(1), Sem(0, FIRST), Set(0),
                       Page(168, OP_CONNECT, Some(1)), AwaitSync, 1, map[1 := ChildState(AwaitStep3, Some(1))],
                       Two(ClientState(AwaitStep2, None), ClientState(Attach, None)), map[1 := READY], Some(0))
  {
    steps, s := ChildAttaches(s0);
    steps, s := Extend(OrderlyNext, s0, steps, s, ChildMoves(1));
    steps, s := Extend(OrderlyNext, s0, steps, s, ChildMoves(1));
    steps, s := Extend(OrderlyNext, s0, steps, s, ChildMoves(1));
  }

  /** What the round has come to once the key is known: `pc` is where client 0 is. */
  function Keyed(pc: ClientPc): State {
    State(Sem(0, multiset{Parent, Child(1)}), Sem(0, FIRST), Sem(0, FIRST), Set(0),
          ZERO, AwaitSync, 1, map[1 := ChildState(AwaitStep3, Some(1))],
          Two(ClientState(pc, Some(1)), ClientState(Attach, None)), map[1 := READY], Some(0))
  }

  lemma FirstClientWakes(s0: State) returns (steps: seq<Step>, s: State)
    requires Init(s0)
    ensures OrderlyRun(s0, steps, s)
    ensures s == Keyed(ReadKey).(page := Page(168, OP_CONNECT, Some(1)),
                                 clients := Two(ClientState(ReadKey, None), ClientState(Attach, None)))
  {
    TwoUpdated();
    steps, s := ChildPrepares(s0);
    steps, s := Extend(OrderlyNext, s0, steps, s, ClientMoves(0));
  }

  lemma FirstClientReads(s0: State) returns (steps: seq<Step>, s: State)
    requires Init(s0)
    ensures OrderlyRun(s0, steps, s) && s == Keyed(GetSegment)
  {
    TwoUpdated();
    steps, s := FirstClientWakes(s0);
    steps, s := Extend(OrderlyNext, s0, steps, s, ClientMoves(0));
    assert s.clients == Two(ClientState(ClearPage, Some(1)), ClientState(Attach, None));
    steps, s := Extend(OrderlyNext, s0, steps, s, ClientMoves(0));
  }

  lemma KeyedMoves(pc: ClientPc) returns (next: ClientPc)
    requires pc == GetSegment || pc == AttachPrivate || pc == GetSems
    ensures ClientPos(next) == ClientPos(pc) + 1 && OrderlyNext(Keyed(pc), ClientMoves(0)) == Some(Keyed(next))
  {
    TwoUpdated();
    next := if pc == GetSegment then AttachPrivate else if pc == AttachPrivate then GetSems else Step3;
    assert Keyed(pc).clients[0 := ClientState(next, Some(1))] == Keyed(next).clients;
    assert Keyed(pc).segments[1 := READY] == Keyed(pc).segments;
  }

  lemma FirstClientAttaches(s0: State) returns (steps: seq<Step>, s: State)
    requires Init(s0)
    ensures OrderlyRun(s0, steps, s) && s == Keyed(Step3)
  {
    steps, s := FirstClientReads(s0);
    var pc := KeyedMoves(GetSegment);
    steps, s := Extend(OrderlyNext, s0, steps, s, ClientMoves(0));
    pc := KeyedMoves(pc);
    steps, s := Extend(OrderlyNext, s0, steps, s, ClientMoves(0));
    pc := KeyedMoves(pc);
    steps, s := Extend(OrderlyNext, s0, steps, s, ClientMoves(0));
  }

  lemma FirstClientConnects(s0: State) returns (steps: seq<Step>, s: State)
    requires Init(s0)
    ensures OrderlyRun(s0, steps, s)
    ensures s == Keyed(Connected).(semClient := Sem(1, multiset{Parent, Child(1)}), queue := Sem(1, FIRST))
  {
    TwoUpdated();
    steps, s := FirstClientAttaches(s0);
    steps, s := Extend(OrderlyNext, s0, steps, s, ClientMoves(0));
    steps, s := Extend(OrderlyNext, s0, steps, s, ClientMoves(0));
  }

  lemma ParentGoesOn(s0: State) returns (steps: seq<Step>, s: State)
    requires Init(s0)
    ensures OrderlyRun(s0, steps, s)
    ensures s == State(Sem(0, multiset{Parent, Child(1), Child(1)}), Sem(0, FIRST), Sem(1, FIRST),
                       Sem(0, multiset{Parent}), ZERO, ResetClient, 1, map[1 := ChildState(Serving, Some(1))],
                       Two(ClientState(Connected, Some(1)), ClientState(Attach, None)), map[1 := READY], None)
  {
    TwoUpdated();
    steps, s := FirstClientConnects(s0);
    steps, s := Extend(OrderlyNext, s0, steps, s, ChildMoves(1));
    steps, s := Extend(OrderlyNext, s0, steps, s, ChildMoves(1));
    steps, s := Extend(OrderlyNext, s0, steps, s, ParentMoves);
  }

  /** A whole round, after which the second client is in the queue and about to take STEP-0. */
  lemma RoundEnds(s0: State) returns (steps: seq<Step>, s: State)
    requires Init(s0)
    ensures OrderlyRun(s0, steps, s)
    ensures s == State(Sem(0, multiset{Parent, Child(1), Child(1)}), Sem(0, FIRST), Sem(0, multiset{Client(0), Client(1)}),
                       Sem(0, multiset{Parent}), ZERO, ResetClient, 1, map[1 := ChildState(Serving, Some(1))],
                       Two(ClientState(Connected, Some(1)), ClientState(Step0, None)), map[1 := READY], None)
  {
    TwoUpdated();
    steps, s := ParentGoesOn(s0);
    steps, s := Extend(OrderlyNext, s0, steps, s, ClientMoves(1));
    steps, s := Extend(OrderlyNext, s0, steps, s, ClientMoves(1));
  }

  /** The state that EarlyStep0IsFatal starts from. */
  lemma EarlyStep0IsReachable(s0: State) returns (steps: seq<Step>, s: State)
    requires Init(s0)
    ensures OrderlyRun(s0, steps, s) && LeftSet(s) == {}
    ensures 1 in s.clients && s.clients[1].pc == Step0 && s.parent == ResetClient && s.semServer.val == 0
  {
    steps, s := RoundEnds(s0);
  }

  // ---- the end of a process inside its own handshake ----

  /** A client that ends right after its STEP-0 leaves the child of its round without a request
      and the parent without a child that would release it: neither can move. */
  lemma EndAfterStep0StallsServer(s0: State) returns (steps: seq<Step>, s: State, rest: seq<Step>, t: State)
    requires Init(s0)
    ensures OrderlyRun(s0, steps, s) && s.round == Some(0) && !Orderly(s, ClientExits(0))
    ensures rest != [] && rest[0] == ClientExits(0) && IsRun(Next, s, rest, t)
    ensures t.parent == AwaitSync && 1 in t.children && t.children[1].pc == AwaitStep1
    ensures Next(t, ParentMoves) == None && Next(t, ChildMoves(1)) == None
  {
    steps, s := FirstClientEnters(s0);
    steps, s := Extend(OrderlyNext, s0, steps, s, ClientMoves(0));
    rest, t := Extend(Next, s, [], s, ClientExits(0));
    rest, t := Extend(Next, s, rest, t, ParentMoves);
    rest, t := Extend(Next, s, rest, t, ParentMoves);
  }

  // ---- what the end of a connected client does to those that come after it ----

  lemma FirstClientEnds(s0: State) returns (steps: seq<Step>, s: State)
    requires Init(s0)
    ensures OrderlyRun(s0, steps, s)
    ensures s.clients == Two(ClientState(Gone(true), Some(1)), ClientState(Step0, None)) && s.queue.val == 1
    ensures s.parent == ResetClient && s.round == None
    ensures s.page == ZERO && s.cliCount == 1 && s.children == map[1 := ChildState(Serving, Some(1))]
  {
    TwoUpdated();
    steps, s := RoundEnds(s0);
    steps, s := Extend(OrderlyNext, s0, steps, s, ClientExits(0));
  }

  /** It opens the queue for good: two clients are in the handshake, in an orderly run. */
  lemma TwoAreLetIn(s0: State) returns (steps: seq<Step>, s: State)
    requires Init(s0)
    ensures OrderlyRun(s0, steps, s) && Inside(s, 1) && Inside(s, 2)
    ensures s.clients[1] == ClientState(Step0, None) && s.clients[2] == ClientState(Step0, None)
    ensures s.parent == AwaitStep0 && s.round == None && s.semClient == Set(0) && s.semServer == Set(0)
    ensures s.page == ZERO && s.cliCount == 1 && s.children == map[1 := ChildState(Serving, Some(1))]
  {
    steps, s := FirstClientEnds(s0);
    steps, s := Extend(OrderlyNext, s0, steps, s, Arrive(2));
    steps, s := Extend(OrderlyNext, s0, steps, s, ClientMoves(2));
    steps, s := Extend(OrderlyNext, s0, steps, s, ClientMoves(2));
    steps, s := Extend(OrderlyNext, s0, steps, s, ParentMoves);
    steps, s := Extend(OrderlyNext, s0, steps, s, ParentMoves);
  }

  /** Then STEP-0 in somebody else's round is taken for that client's STEP-1: the child finds no
      request and leaves, and the parent waits for it for ever. */
  lemma SecondStep0KillsTheChild(s0: State) returns (steps: seq<Step>, s: State)
    requires Init(s0)
    ensures Reaches(s0, steps, s) && 2 in s.children && s.children[2].pc == Dead(false)
    ensures s.parent == AwaitSync && Next(s, ParentMoves) == None
  {
    steps, s := TwoAreLetIn(s0);
    OrderlyRunReaches(s0, steps, s);
    steps, s := Extend(Next, s0, steps, s, ClientMoves(1));
    steps, s := Extend(Next, s0, steps, s, ClientMoves(2));
    steps, s := Extend(Next, s0, steps, s, ParentMoves);
    steps, s := Extend(Next, s0, steps, s, ParentMoves);
    steps, s := Extend(Next, s0, steps, s, ChildMoves(2));
    steps, s := Extend(Next, s0, steps, s, ChildMoves(2));
    DeadChildStallsServer(s0, steps, s, 2);
  }

  /** Client 1 has gone through STEP-2 and has no key. */
  ghost predicate PassedWithoutKey(s: State) {
    1 in s.clients && s.clients[1] == ClientState(ClearPage, None)
  }

  /** STEP-0 between the parent's two resets is orderly. If the earlier client ends before the
      second reset, its end raises SEM_SERVER and lets the new client through STEP-2. */
  lemma EndDuringRoundSkipsStep2(s0: State) returns (steps: seq<Step>, s: State, rest: seq<Step>, t: State)
    requires Init(s0)
    ensures OrderlyRun(s0, steps, s) && s.parent == ResetServer && s.round == Some(1) && !Orderly(s, ClientExits(0))
    ensures rest != [] && rest[0] == ClientExits(0) && IsRun(Next, s, rest, t) && PassedWithoutKey(t)
  {
    steps, s := RoundEnds(s0);
    steps, s := Extend(OrderlyNext, s0, steps, s, ParentMoves);
    steps, s := Extend(OrderlyNext, s0, steps, s, ClientMoves(1));
    rest, t := PassAfterEnd(s);
  }

  lemma PassAfterEnd(s: State) returns (rest: seq<Step>, t: State)
    requires s.semServer == Sem(0, FIRST) && s.page == ZERO && 0 in s.clients && s.clients[0].pc == Connected
    requires 1 in s.clients && s.clients[1] == ClientState(WriteSize, None)
    ensures rest != [] && rest[0] == ClientExits(0) && IsRun(Next, s, rest, t) && PassedWithoutKey(t)
  {
    rest, t := Extend(Next, s, [], s, ClientExits(0));
    rest, t := Extend(Next, s, rest, t, ClientMoves(1));
    rest, t := Extend(Next, s, rest, t, ClientMoves(1));
    rest, t := Extend(Next, s, rest, t, ClientMoves(1));
    rest, t := Extend(Next, s, rest, t, ClientMoves(1));
    rest, t := Extend(Next, s, rest, t, ClientMoves(1));
  }

  /** The only way out of EarlyStep0IsFatal: the end of the previous client, which lets the
      starved one through STEP-2, though without a key. */
  lemma EndFreesTheStarved(s0: State) returns (steps: seq<Step>, s: State, rest: seq<Step>, t: State)
    requires Init(s0)
    ensures OrderlyRun(s0, steps, s) && 1 in s.clients && s.clients[1].pc == Step0 && s.parent == ResetClient
    ensures |rest| > 1 && rest[0] == ClientMoves(1) && rest[1] == ClientExits(0)
    ensures IsRun(Next, s, rest, t) && PassedWithoutKey(t)
  {
    steps, s := RoundEnds(s0);
    var u := Next(s, ClientMoves(1)).value;
    var more;
    more, t := PassAfterEnd(u);
    rest := [ClientMoves(1)] + more;
    assert rest[1..] == more;
  }
}
