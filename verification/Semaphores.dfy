/** ipc/lib/semaphore.c over System V semaphores: `sem_down` asks the kernel to undo it when
    the process ends (SEM_UNDO), `sem_up` does not. */
module Semaphores {

  /** The processes of a shared-memory server: the parent, its n-th child, the n-th client. */
  datatype Pid = Parent | Child(n: nat) | Client(n: nat)

  /** A counter and, per process, how many of its downs the kernel would undo. */
  datatype Sem = Sem(val: nat, undo: multiset<Pid>)

  /** SETVAL also forgets every pending undo of the semaphore. */
  function Set(v: nat): Sem {
    Sem(v, multiset{})
  }

  function Up(s: Sem): Sem {
    s.(val := s.val + 1)
  }

  /** Defined when the kernel lets the caller through. */
  function Down(s: Sem, p: Pid): Sem
    requires s.val > 0
  {
    Sem(s.val - 1, s.undo + multiset{p})
  }

  /** What the end of process `p` does. */
  function Exited(s: Sem, p: Pid): Sem {
    Sem(s.val + s.undo[p], s.undo[p := 0])
  }

  datatype Op = DoUp | DoDown(p: Pid) | DoExit(p: Pid)

  function Perform(s: Sem, op: Op): Sem
    requires op.DoDown? ==> s.val > 0
  {
    match op
    case DoUp => Up(s)
    case DoDown(p) => Down(s, p)
    case DoExit(p) => Exited(s, p)
  }

  ghost predicate Feasible(s: Sem, ops: seq<Op>)
    decreases |ops|
  {
    ops == [] || ((ops[0].DoDown? ==> s.val > 0) && Feasible(Perform(s, ops[0]), ops[1..]))
  }

  ghost function PerformAll(s: Sem, ops: seq<Op>): Sem
    requires Feasible(s, ops)
    decreases |ops|
  {
    if ops == [] then s else PerformAll(Perform(s, ops[0]), ops[1..])
  }

  ghost function Ups(ops: seq<Op>): nat {
    if ops == [] then 0 else (if ops[0].DoUp? then 1 else 0) + Ups(ops[1..])
  }

  /** Of any semaphore under these operations, on its own: ups stay, downs last only as long as
      their process. Counter plus downs in force equals the starting value plus the ups.
      (Admission.dfy says what that comes to for the queue, in terms of where its clients are.) */
  lemma {:induction false} DownsAreOnLoan(s: Sem, ops: seq<Op>)
    requires Feasible(s, ops)
    ensures PerformAll(s, ops).val + |PerformAll(s, ops).undo| == s.val + |s.undo| + Ups(ops)
    decreases |ops|
  {
    if ops != [] {
      var t := Perform(s, ops[0]);
      if ops[0].DoExit? {
        assert s.undo == t.undo + multiset{}[ops[0].p := s.undo[ops[0].p]];
      }
      DownsAreOnLoan(t, ops[1..]);
    }
  }

  /** SETVAL is the one operation after which no end of a process moves the counter: a semaphore
      that no end can move is a fresh one. */
  lemma SetOwesNothing(v: nat)
    ensures forall s: Sem :: s.val == v ==> ((forall p :: Exited(s, p) == s) <==> s == Set(v))
  {
    forall s: Sem | s.val == v ensures (forall p :: Exited(s, p) == s) <==> s == Set(v) {
      if s == Set(v) {
        forall p ensures Exited(s, p) == s {
          assert multiset{}[p := 0] == multiset{};
        }
      } else {
        assert s.undo != multiset{};
        var p :| p in s.undo;
        assert Exited(s, p) != s;
      }
    }
  }

  /** A set of semaphores as semget hands it out; the methods are the calls of semaphore.c. */
  class SemaphoreSet {
    var sems: seq<Sem>

    constructor (n: nat)
      ensures |sems| == n && forall i :: 0 <= i < n ==> sems[i] == Set(0)
    {
      sems := seq(n, i => Set(0));
    }

    /** Whoever ends afterwards, the value set stays. */
    method SemSet(num: nat, val: nat)
      requires num < |sems|
      modifies this
      ensures |sems| == |old(sems)| && forall i :: 0 <= i < |sems| && i != num ==> sems[i] == old(sems)[i]
      ensures sems[num].val == val && forall p :: Exited(sems[num], p) == sems[num]
    {
      sems := sems[num := Set(val)];
      SetOwesNothing(val);
    }

    /** Returns once the counter is positive; the precondition is that moment. */
    method SemDown(num: nat, caller: Pid)
      requires num < |sems| && sems[num].val > 0
      modifies this
      ensures sems == old(sems)[num := Down(old(sems)[num], caller)]
    {
      var s := sems[num];
      sems := sems[num := Sem(s.val - 1, s.undo + multiset{caller})];
    }

    method SemUp(num: nat)
      requires num < |sems|
      modifies this
      ensures sems == old(sems)[num := Up(old(sems)[num])]
    {
      sems := sems[num := Sem(sems[num].val + 1, sems[num].undo)];
    }
  }
}
