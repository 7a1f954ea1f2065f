/** What each step of Rendezvous.dfy changes, field by field. The invariants are proved from
    these descriptions, without the step functions' bodies. */
module Effects {
  import opened Types
  import opened Semaphores
  import opened Rendezvous

  // ---- a child ----

  /** How far a child at position `pos` has prepared its private segment. */
  ghost predicate Prepared(g: Segment, pos: nat) {
    && (pos >= 6 ==> g.zeroed)
    && (pos >= 7 ==> g.sems.Pair?)
    && (pos >= 8 ==> g.sems.Pair? && g.sems.client == Some(0))
    && (pos >= 9 ==> g == READY)
  }

  /** A step of child `n` that is not its error exit. */
  ghost predicate ChildEffect(s: State, t: State, n: nat) {
    && n in s.children && t.children.Keys == s.children.Keys
    && var pos := ChildPos(s.children[n].pc);
       && (forall k :: k in s.children && k != n ==> t.children[k] == s.children[k])
       && pos < 12 && ChildPos(t.children[n].pc) == pos + 1
       && t.children[n].key == (if pos == 3 then s.page.key else s.children[n].key)
       && (if pos == 0 || pos == 10 then s.semClient.val > 0 && t.semClient == Down(s.semClient, Child(n))
           else t.semClient == s.semClient)
       && t.semServer == (if pos == 9 then Up(s.semServer) else s.semServer)
       && t.srvQueue == (if pos == 11 then Up(s.srvQueue) else s.srvQueue)
       && t.page == (if pos == 2 then s.page.(key := Some(Ftok(n))) else s.page)
       && t.clients == s.clients && t.parent == s.parent && t.cliCount == s.cliCount
       && t.round == s.round && t.queue == s.queue
       && if 4 <= pos <= 8 then
            && t.segments.Keys == s.segments.Keys + {n}
            && (forall k :: k in s.segments && k != n ==> t.segments[k] == s.segments[k])
            && Prepared(t.segments[n], pos + 1)
          else t.segments == s.segments
  }

  lemma EarlyChildEffect(s: State, n: nat)
    requires n in s.children && ChildPos(s.children[n].pc) <= 3 && ChildNext(s, n).Some?
    requires s.children[n].pc == CheckOpcode ==> s.page.opcode == OP_CONNECT
    ensures ChildEffect(s, ChildNext(s, n).value, n)
  {}

  lemma CreateEffect(s: State, n: nat)
    requires n in s.children && s.children[n] == ChildState(CreateSegment, Some(n)) && n !in s.segments
    ensures ChildNext(s, n).Some? && ChildEffect(s, ChildNext(s, n).value, n)
  {}

  lemma SegmentEffect(s: State, n: nat)
    requires n in s.children && 5 <= ChildPos(s.children[n].pc) <= 8 && s.children[n].key == Some(n)
    requires n in s.segments && Prepared(s.segments[n], ChildPos(s.children[n].pc))
    ensures ChildNext(s, n).Some? && ChildEffect(s, ChildNext(s, n).value, n)
  {}

  lemma LateChildEffect(s: State, n: nat)
    requires n in s.children && ChildPos(s.children[n].pc) > 8 && ChildNext(s, n).Some?
    ensures ChildEffect(s, ChildNext(s, n).value, n)
  {}

  // ---- a client ----

  /** A step of client `n` that is not its error exit. */
  ghost predicate ClientEffect(s: State, t: State, n: nat) {
    && n in s.clients && t.clients.Keys == s.clients.Keys
    && var pos := ClientPos(s.clients[n].pc);
       && (forall i :: i in s.clients && i != n ==> t.clients[i] == s.clients[i])
       && pos < 14 && ClientPos(t.clients[n].pc) == pos + 1
       && t.clients[n].key == (if pos == 7 then s.page.key else s.clients[n].key)
       && (if pos == 1 then s.queue.val > 0 && t.queue == Down(s.queue, Client(n))
           else t.queue == if pos == 13 then Up(s.queue) else s.queue)
       && t.semClient == (if pos == 2 || pos == 5 || pos == 12 then Up(s.semClient) else s.semClient)
       && (if pos == 6 then s.semServer.val > 0 && t.semServer == Down(s.semServer, Client(n))
           else t.semServer == s.semServer)
       && t.round == (if pos == 2 then Some(n) else s.round)
       && t.page == (if pos == 0 || pos == 8 then ZERO
                     else if pos == 3 then s.page.(size := 168)
                     else if pos == 4 then s.page.(opcode := OP_CONNECT)
                     else s.page)
       && t.children == s.children && t.parent == s.parent && t.cliCount == s.cliCount
       && t.srvQueue == s.srvQueue && t.segments == s.segments
  }

  lemma EarlyClientEffect(s: State, n: nat)
    requires n in s.clients && ClientPos(s.clients[n].pc) <= 4 && ClientNext(s, n).Some?
    ensures ClientEffect(s, ClientNext(s, n).value, n)
  {}

  lemma MiddleClientEffect(s: State, n: nat)
    requires n in s.clients && 5 <= ClientPos(s.clients[n].pc) <= 8 && ClientNext(s, n).Some?
    ensures ClientEffect(s, ClientNext(s, n).value, n)
  {}

  /** The segment is there, and attaching it once more leaves it ready. */
  lemma LateClientEffect(s: State, n: nat)
    requires n in s.clients && ClientPos(s.clients[n].pc) > 8 && ClientNext(s, n).Some?
    requires ClientPos(s.clients[n].pc) <= 11 ==>
      s.clients[n].key.Some? && s.clients[n].key.value in s.segments && s.segments[s.clients[n].key.value] == READY
    ensures ClientEffect(s, ClientNext(s, n).value, n)
  {}

  // ---- the parent ----

  ghost predicate ParentEffect(s: State, t: State) {
    && t.clients == s.clients && t.queue == s.queue && t.page == s.page && t.segments == s.segments
    && (s.parent != AwaitSync ==> t.round == s.round && t.srvQueue == s.srvQueue)
    && (s.parent != Fork ==> t.children == s.children && t.cliCount == s.cliCount)
    && match s.parent
       case ResetClient => t.parent == ResetServer && t.semClient == Set(0) && t.semServer == s.semServer
       case ResetServer => t.parent == AwaitStep0 && t.semClient == s.semClient && t.semServer == Set(0)
       case AwaitStep0 =>
         t.parent == Fork && s.semClient.val > 0 && t.semClient == Down(s.semClient, Parent) && t.semServer == s.semServer
       case Fork =>
         t.parent == AwaitSync && t.semClient == s.semClient && t.semServer == s.semServer
         && s.cliCount < 254 && t.cliCount == s.cliCount + 1
         && t.children == s.children[t.cliCount := ChildState(AwaitStep1, None)]
       case AwaitSync =>
         t.parent == ResetClient && t.semClient == s.semClient && t.semServer == s.semServer
         && s.srvQueue.val > 0 && t.srvQueue == Down(s.srvQueue, Parent) && t.round == None
  }

  lemma ParentTakesEffect(s: State)
    requires ParentNext(s).Some?
    ensures ParentEffect(s, ParentNext(s).value)
  {}

  // ---- arrivals and ends ----

  /** A newcomer is not yet in the queue and has no key. */
  ghost predicate Arrived(s: State, t: State, n: nat) {
    n !in s.clients && t == s.(clients := s.clients[n := ClientState(Attach, None)])
  }

  /** What the kernel undoes when process `p` ends, and what its end leaves alone. */
  ghost predicate EndOf(s: State, t: State, p: Pid) {
    && t.semClient == Exited(s.semClient, p) && t.semServer == Exited(s.semServer, p)
    && t.queue == Exited(s.queue, p) && t.srvQueue == Exited(s.srvQueue, p)
    && t.page == s.page && t.parent == s.parent && t.cliCount == s.cliCount && t.round == s.round
  }

  ghost predicate ClientEnded(s: State, t: State, n: nat) {
    && n in s.clients && !s.clients[n].pc.Gone? && EndOf(s, t, Client(n))
    && t.clients.Keys == s.clients.Keys && (forall i :: i in s.clients && i != n ==> t.clients[i] == s.clients[i])
    && t.clients[n] == s.clients[n].(pc := Gone(s.clients[n].pc == Connected))
    && t.children == s.children && t.segments == s.segments
  }

  /** A child that has served removes its segment. */
  ghost predicate ChildEnded(s: State, t: State, n: nat) {
    && n in s.children && !s.children[n].pc.Dead? && EndOf(s, t, Child(n)) && t.clients == s.clients
    && t.children.Keys == s.children.Keys && (forall k :: k in s.children && k != n ==> t.children[k] == s.children[k])
    && t.children[n] == s.children[n].(pc := Dead(s.children[n].pc == Serving))
    && t.segments == if s.children[n].pc == Serving && s.children[n].key != None
                     then s.segments - {s.children[n].key.value} else s.segments
  }

  lemma ExitTakesEffect(s: State, step: Step)
    requires (step.ClientExits? || step.ChildExits?) && Next(s, step).Some?
    ensures step.ClientExits? ==> ClientEnded(s, Next(s, step).value, step.n)
    ensures step.ChildExits? ==> ChildEnded(s, Next(s, step).value, step.n)
  {}
}
