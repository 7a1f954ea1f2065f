/** The shared-memory handshake: ipc_accept, ipc_sync, ipc_waitsync and ipc_connect of
    ipc/shmem.c inside the accept/fork loop of server/server.c. Every semaphore operation and
    every access to shared memory is one step; the parent, its children and any number of
    clients take their steps in any order. */
module Rendezvous {
  import opened Types
  import opened Semaphores
  import opened Runs

  // ---- the shared state ----

  const OP_CONNECT := 4

  /** The fields of the public page that the handshake uses; None is a zeroed key. */
  datatype Page = Page(size: nat, opcode: nat, key: Option<nat>)

  const ZERO := Page(0, 0, None)

  /** A private segment and the semaphore pair with the same key. A fresh semaphore has no
      specified value, hence the options. */
  datatype Pair = NoPair | Pair(client: Option<nat>, server: Option<nat>)
  datatype Segment = Segment(zeroed: bool, sems: Pair)

  const READY := Segment(true, Pair(Some(0), Some(0)))

  /** ftok keeps the low 8 bits of the id. */
  function Ftok(id: nat): nat {
    id % 256
  }

  // ---- where each process is ----

  datatype ParentPc = ResetClient | ResetServer | AwaitStep0 | Fork | AwaitSync

  datatype ChildPc =
    | AwaitStep1 | CheckOpcode | WriteKey | ReadBack | CreateSegment | AttachSegment | GetPair
    | PairResetClient | PairResetServer | Step2Up | AwaitStep3 | ReleaseParent | Serving | Dead(synced: bool)

  datatype ClientPc =
    | Attach | EnterQueue | Step0 | WriteSize | WriteOpcode | Step1 | AwaitStep2 | ReadKey | ClearPage
    | GetSegment | AttachPrivate | GetSems | Step3 | LeaveQueue | Connected | Gone(connected: bool)

  datatype ChildState = ChildState(pc: ChildPc, key: Option<nat>)
  datatype ClientState = ClientState(pc: ClientPc, key: Option<nat>)

  /** `round` records which client is being connected: it is set by that client's STEP-0 and
      cleared when the parent learns that the round is over. No process reads it. */
  datatype State = State(
    semClient: Sem, semServer: Sem, queue: Sem, srvQueue: Sem, page: Page,
    parent: ParentPc, cliCount: nat,
    children: map<nat, ChildState>, clients: map<nat, ClientState>,
    segments: map<nat, Segment>, round: Option<nat>)

  function ChildPos(pc: ChildPc): nat {
    match pc
    case AwaitStep1 => 0
    case CheckOpcode => 1
    case WriteKey => 2
    case ReadBack => 3
    case CreateSegment => 4
    case AttachSegment => 5
    case GetPair => 6
    case PairResetClient => 7
    case PairResetServer => 8
    case Step2Up => 9
    case AwaitStep3 => 10
    case ReleaseParent => 11
    case Serving => 12
    case Dead(_) => 13
  }

  function ClientPos(pc: ClientPc): nat {
    match pc
    case Attach => 0
    case EnterQueue => 1
    case Step0 => 2
    case WriteSize => 3
    case WriteOpcode => 4
    case Step1 => 5
    case AwaitStep2 => 6
    case ReadKey => 7
    case ClearPage => 8
    case GetSegment => 9
    case AttachPrivate => 10
    case GetSems => 11
    case Step3 => 12
    case LeaveQueue => 13
    case Connected => 14
    case Gone(_) => 15
  }

  /** Between the entry to the queue and the release of it. */
  ghost predicate Inside(s: State, i: nat) {
    i in s.clients && 2 <= ClientPos(s.clients[i].pc) <= 13
  }

  // ---- steps ----

  datatype Step =
    | Arrive(n: nat)      // a new client process starts
    | ParentMoves
    | ChildMoves(n: nat)
    | ClientMoves(n: nat)
    | ChildExits(n: nat)
    | ClientExits(n: nat)

  /** After ipc_listen: the queue lets one client in; the public semaphores hold anything, but
      no process of this server has lowered them yet. */
  ghost predicate Init(s: State) {
    && s.semClient.undo == multiset{} && s.semServer.undo == multiset{}
    && s.queue == Set(1) && s.srvQueue == Set(0) && s.page == ZERO
    && s.parent == ResetClient && s.cliCount == 0 && s.round == None
    && s.children == map[] && s.clients == map[] && s.segments == map[]
  }

  function WithChild(s: State, n: nat, pc: ChildPc): State
    requires n in s.children
  {
    s.(children := s.children[n := s.children[n].(pc := pc)])
  }

  function WithClient(s: State, n: nat, pc: ClientPc): State
    requires n in s.clients
  {
    s.(clients := s.clients[n := s.clients[n].(pc := pc)])
  }

  /** The kernel undoes the downs of a process that ends. */
  function Undone(s: State, p: Pid): State {
    s.(semClient := Exited(s.semClient, p), semServer := Exited(s.semServer, p),
       queue := Exited(s.queue, p), srvQueue := Exited(s.srvQueue, p))
  }

  /** A zeroed key is IPC_PRIVATE: such a segment belongs to the caller alone. */
  function WithSegment(s: State, key: Option<nat>, g: Segment): State {
    if key == None then s else s.(segments := s.segments[key.value := g])
  }

  function ParentNext(s: State): Option<State> {
    match s.parent
    case ResetClient => Some(s.(semClient := Set(0), parent := ResetServer))
    case ResetServer => Some(s.(semServer := Set(0), parent := AwaitStep0))
    case AwaitStep0 =>
      if s.semClient.val == 0 then None
      else Some(s.(semClient := Down(s.semClient, Parent), parent := Fork))
    case Fork =>
      // the key of the next child must differ from the public key and the queue's key
      if s.cliCount >= 254 then None
      else Some(s.(cliCount := s.cliCount + 1, parent := AwaitSync,
                   children := s.children[s.cliCount + 1 := ChildState(AwaitStep1, None)]))
    case AwaitSync =>
      if s.srvQueue.val == 0 then None
      else Some(s.(srvQueue := Down(s.srvQueue, Parent), parent := ResetClient, round := None))
  }

  function ChildNext(s: State, n: nat): Option<State>
    requires n in s.children
  {
    var c := s.children[n];
    match c.pc
    case AwaitStep1 =>
      if s.semClient.val == 0 then None
      else Some(WithChild(s, n, CheckOpcode).(semClient := Down(s.semClient, Child(n))))
    case CheckOpcode =>
      if s.page.opcode == OP_CONNECT then Some(WithChild(s, n, WriteKey))
      else Some(Undone(WithChild(s, n, Dead(false)), Child(n)))
    case WriteKey => Some(WithChild(s, n, ReadBack).(page := s.page.(key := Some(Ftok(n)))))
    case ReadBack => Some(s.(children := s.children[n := ChildState(CreateSegment, s.page.key)]))
    case CreateSegment =>
      if c.key != None && c.key.value in s.segments then Some(Undone(WithChild(s, n, Dead(false)), Child(n)))
      else Some(WithSegment(WithChild(s, n, AttachSegment), c.key, Segment(false, NoPair)))
    case AttachSegment =>
      Some(WithSegment(WithChild(s, n, GetPair), c.key, Segment(true, PairOf(s, c.key))))
    case GetPair =>
      var pair := PairOf(s, c.key);
      Some(WithSegment(WithChild(s, n, PairResetClient), c.key,
                       Segment(ZeroedAt(s, c.key), if pair == NoPair then Pair(None, None) else pair)))
    case PairResetClient =>
      var pair := PairOf(s, c.key);
      Some(WithSegment(WithChild(s, n, PairResetServer), c.key,
                       Segment(ZeroedAt(s, c.key), if pair == NoPair then pair else pair.(client := Some(0)))))
    case PairResetServer =>
      var pair := PairOf(s, c.key);
      Some(WithSegment(WithChild(s, n, Step2Up), c.key,
                       Segment(ZeroedAt(s, c.key), if pair == NoPair then pair else pair.(server := Some(0)))))
    case Step2Up => Some(WithChild(s, n, AwaitStep3).(semServer := Up(s.semServer)))
    case AwaitStep3 =>
      if s.semClient.val == 0 then None
      else Some(WithChild(s, n, ReleaseParent).(semClient := Down(s.semClient, Child(n))))
    case ReleaseParent => Some(WithChild(s, n, Serving).(srvQueue := Up(s.srvQueue)))
    case Serving => None
    case Dead(_) => None
  }

  function PairOf(s: State, key: Option<nat>): Pair {
    if key != None && key.value in s.segments then s.segments[key.value].sems else NoPair
  }

  function ZeroedAt(s: State, key: Option<nat>): bool {
    key != None && key.value in s.segments && s.segments[key.value].zeroed
  }

  function ClientNext(s: State, n: nat): Option<State>
    requires n in s.clients
  {
    var c := s.clients[n];
    match c.pc
    case Attach => Some(WithClient(s, n, EnterQueue).(page := ZERO))
    case EnterQueue =>
      if s.queue.val == 0 then None
      else Some(WithClient(s, n, Step0).(queue := Down(s.queue, Client(n))))
    case Step0 => Some(WithClient(s, n, WriteSize).(semClient := Up(s.semClient), round := Some(n)))
    case WriteSize => Some(WithClient(s, n, WriteOpcode).(page := s.page.(size := 168)))
    case WriteOpcode => Some(WithClient(s, n, Step1).(page := s.page.(opcode := OP_CONNECT)))
    case Step1 => Some(WithClient(s, n, AwaitStep2).(semClient := Up(s.semClient)))
    case AwaitStep2 =>
      if s.semServer.val == 0 then None
      else Some(WithClient(s, n, ReadKey).(semServer := Down(s.semServer, Client(n))))
    case ReadKey => Some(s.(clients := s.clients[n := ClientState(ClearPage, s.page.key)]))
    case ClearPage => Some(WithClient(s, n, GetSegment).(page := ZERO))
    case GetSegment =>
      if c.key != None && c.key.value !in s.segments then Some(Undone(WithClient(s, n, Gone(false)), Client(n)))
      else Some(WithClient(s, n, AttachPrivate))
    case AttachPrivate => Some(WithSegment(WithClient(s, n, GetSems), c.key, Segment(true, PairOf(s, c.key))))
    case GetSems =>
      var pair := PairOf(s, c.key);
      Some(WithSegment(WithClient(s, n, Step3), c.key,
                       Segment(ZeroedAt(s, c.key), if pair == NoPair then Pair(None, None) else pair)))
    case Step3 => Some(WithClient(s, n, LeaveQueue).(semClient := Up(s.semClient)))
    case LeaveQueue => Some(WithClient(s, n, Connected).(queue := Up(s.queue)))
    case Connected => None
    case Gone(_) => None
  }

  /** The state after one step, or None when the process is blocked or has no such step. */
  function Next(s: State, step: Step): Option<State> {
    match step
    case Arrive(n) => if n in s.clients then None else Some(s.(clients := s.clients[n := ClientState(Attach, None)]))
    case ParentMoves => ParentNext(s)
    case ChildMoves(n) => if n in s.children then ChildNext(s, n) else None
    case ClientMoves(n) => if n in s.clients then ClientNext(s, n) else None
    case ChildExits(n) =>
      if n !in s.children || s.children[n].pc.Dead? then None
      else
        var c := s.children[n];
        var t := Undone(WithChild(s, n, Dead(c.pc == Serving)), Child(n));
        if c.pc == Serving && c.key != None then Some(t.(segments := t.segments - {c.key.value})) else Some(t)
    case ClientExits(n) =>
      if n !in s.clients || s.clients[n].pc.Gone? then None
      else Some(Undone(WithClient(s, n, Gone(s.clients[n].pc == Connected)), Client(n)))
  }

  /** `s` is what a run of these steps, none of them blocked, leads to. */
  ghost predicate Reaches(s0: State, steps: seq<Step>, s: State) {
    IsRun(Next, s0, steps, s)
  }
}
