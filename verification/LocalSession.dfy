/** ipc/lib/filemutex.c and one command of client/localclient.c, as the process calls them. */
module LocalSession {
  import opened Types
  import opened Tables
  import opened Database
  import opened Server

  /** The kernel's write lock on the whole mutex file. */
  class LockFile {
    var owner: Option<int>

    constructor ()
      ensures owner == None
    {
      owner := None;
    }
  }

  class FileMutex {
    const file: LockFile
    const pid: int
    var fd: int

    constructor (lock: LockFile, p: int)
      ensures file == lock && pid == p && fd == -2
    {
      file, pid, fd := lock, p, -2;
    }

    /** F_SETLKW returns once no other process holds the lock; the precondition is that moment. */
    method Enter(descriptor: nat)
      requires file.owner == None || file.owner == Some(pid)
      modifies this`fd, file`owner
      ensures file.owner == Some(pid) && fd == descriptor
    {
      fd := descriptor;
      file.owner := Some(pid);
    }

    /** Unlocking, and closing the file, releases this process's lock only. */
    method Leave()
      requires fd >= 0
      modifies file`owner
      ensures file.owner == if old(file.owner) == Some(pid) then None else old(file.owner)
    {
      if file.owner == Some(pid) {
        file.owner := None;
      }
    }
  }

  /** A command between enter and leave: the reply and the connection are the specification's,
      the lock is free again, and a transaction is open afterwards exactly when the command
      was a purchase of a missing flight, or one was open and the command was no purchase. */
  method RunCommand(mutex: FileMutex, db: Database, request: Request, descriptor: nat) returns (ans: Option<Reply>)
    requires ConnValid(db.View()) && mutex.file.owner == None
    modifies mutex`fd, mutex.file`owner, db
    ensures ConnValid(db.View()) && db.View() == Execute(old(db.View()), request)
    ensures ans == Apply(old(db.working), request).1
    ensures mutex.file.owner == None
    ensures db.open <==> if request.Purchase? then !HasFlight(old(db.working), request.flight) else old(db.open)
  {
    mutex.Enter(descriptor);
    ans := ExecuteDatagram(db, request);
    mutex.Leave();
  }
}
