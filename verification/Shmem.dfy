/** ipc_send, ipc_receive and shmem_attach of ipc/shmem.c on the attached page itself. */
module Shmem {
  import opened Types
  import opened Server
  import opened Semaphores
  import opened Bytes
  import opened Wire

  const SEM_SERVER := 0
  const SEM_CLIENT := 1

  class Session {
    var alloc: array<byte>
    var sems: SemaphoreSet
    const server: bool
    const me: Pid

    ghost predicate Valid()
      reads this, sems
    {
      alloc.Length == SHMEM_SIZE && |sems.sems| == 2
    }

    /** The semaphore this side waits on, and the one it raises. */
    function Mine(): nat {
      if server then SEM_CLIENT else SEM_SERVER
    }

    function Other(): nat {
      if server then SEM_SERVER else SEM_CLIENT
    }

    constructor (segment: array<byte>, pair: SemaphoreSet, asServer: bool, pid: Pid)
      requires segment.Length == SHMEM_SIZE && |pair.sems| == 2
      ensures Valid() && alloc == segment && sems == pair && server == asServer && me == pid
    {
      alloc, sems, server, me := segment, pair, asServer, pid;
    }

    /** shmem_attach zeroes the whole page, whoever attaches. */
    method Attach()
      requires Valid()
      modifies alloc
      ensures forall i :: 0 <= i < SHMEM_SIZE ==> alloc[i] == 0
    {
      for i := 0 to SHMEM_SIZE
        invariant forall j :: 0 <= j < i ==> alloc[j] == 0
      {
        alloc[i] := 0;
      }
    }

    /** sem_reset: both sides would wait now, and no process that ends changes that. */
    method SemReset()
      requires Valid()
      modifies sems
      ensures Valid() && sems == old(sems) && sems.sems[Mine()].val == 0 && sems.sems[Other()].val == 0
      ensures forall i, p :: 0 <= i < 2 ==> Exited(sems.sems[i], p) == sems.sems[i]
    {
      sems.SemSet(SEM_CLIENT, 0);
      sems.SemSet(SEM_SERVER, 0);
    }

    /** -1, and nothing else, when the datagram is larger than the page. */
    method IpcSend(data: array<byte>) returns (code: int)
      requires Valid() && data != alloc && 8 <= data.Length && SizeField(data[..]) <= data.Length
      modifies alloc, sems
      ensures Valid() && sems == old(sems) && alloc == old(alloc)
      ensures code == if SizeField(data[..]) <= SHMEM_SIZE then 0 else -1
      ensures code == 0 ==>
                && alloc[..] == Patched(old(alloc[..]), 0, data[..SizeField(data[..])])
                && sems.sems == old(sems.sems)[Other() := Up(old(sems.sems)[Other()])]
      ensures code == -1 ==> alloc[..] == old(alloc[..]) && sems.sems == old(sems.sems)
    {
      var size := SizeField(data[..]);
      if size > SHMEM_SIZE {
        return -1;
      }
      Copy(alloc, 0, data[..size]);
      sems.SemUp(Other());
      code := 0;
    }

    method IpcReceive() returns (datagram: array<byte>)
      requires Valid() && sems.sems[Mine()].val > 0 && SizeField(alloc[..]) <= SHMEM_SIZE
      modifies sems
      ensures Valid() && sems == old(sems) && alloc == old(alloc)
      ensures sems.sems == old(sems.sems)[Mine() := Down(old(sems.sems)[Mine()], me)]
      ensures fresh(datagram) && datagram[..] == alloc[..SizeField(alloc[..])]
    {
      sems.SemDown(Mine(), me);
      var size := SizeField(alloc[..]);
      datagram := new byte[size];
      Copy(datagram, 0, alloc[..size]);
    }
  }

  /** What the receiver copies out of the page is what the sender copied in, whatever was on
      the page before. */
  lemma SentIsReceived(page: seq<byte>, data: seq<byte>)
    requires |page| == SHMEM_SIZE && 8 <= |data| == SizeField(data) <= SHMEM_SIZE
    ensures SizeField(Patched(page, 0, data)) == |data|
    ensures Patched(page, 0, data)[..|data|] == data
  {
    assert Patched(page, 0, data)[0..8] == data[0..8];
  }

  /** An answer with flights crosses the page exactly when it has at most 25 of them, and then
      the client reads the same flights in the same order. */
  lemma FlightsCrossThePage(page: seq<byte>, data: seq<byte>, rows: seq<Flight>)
    requires |page| == SHMEM_SIZE && Carries(SharedMemory, data, rows)
    requires |data| == Size(SharedMemory, Answer(Flights(rows)))
    ensures SizeField(data) <= SHMEM_SIZE <==> |rows| <= 25
    ensures |rows| <= 25 ==>
              var after := Patched(page, 0, data);
              && SizeField(after) <= SHMEM_SIZE && after[..SizeField(after)] == data
              && Carries(SharedMemory, after[..SizeField(after)], rows)
  {
    TwentyFiveFlightsFit(SharedMemory, rows);
    if |rows| <= 25 {
      SentIsReceived(page, data);
    }
  }
}
