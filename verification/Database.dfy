/** server/db/database.c: one SQLite connection, its open transaction, and the commands
    written against it. A connection is a small state machine: what the file holds
    (`durable`), what the connection reads (`working`), and whether a transaction is open. */
module Database {
  import opened Types
  import opened Tables

  datatype Conn = Conn(durable: Tables, working: Tables, open: bool)

  ghost predicate ConnValid(c: Conn) {
    && Valid(c.durable) && Valid(c.working)
    && (!c.open ==> c.working == c.durable)
    && c.durable.ticketSeq == c.working.ticketSeq
  }

  function Opened(t: Tables): Conn {
    Conn(t, t, false)
  }

  /** The flight is on sale, or the request does not need one. */
  predicate Bookable(t: Tables, r: Request) {
    r.Purchase? ==> HasFlight(t, r.flight)
  }

  /** What one command does to the connection. The reply and the working tables are those of
      the sequential specification; a purchase decides about the transaction. */
  function Execute(c: Conn, r: Request): Conn {
    var t := Apply(c.working, r).0;
    if !Bookable(c.working, r) then Conn(c.durable, t, true)
    else if r.Purchase? then Conn(t, t, false)
    else Conn(if c.open then c.durable else t, t, c.open)
  }

  function Run(c: Conn, rs: seq<Request>): Conn {
    if rs == [] then c else Execute(Run(c, rs[..|rs| - 1]), rs[|rs| - 1])
  }

  lemma RunSnoc(c: Conn, rs: seq<Request>, r: Request)
    ensures Run(c, rs + [r]) == Execute(Run(c, rs), r)
  {
    assert (rs + [r])[..|rs|] == rs;
  }

  lemma ExecuteKeepsValid(c: Conn, r: Request)
    requires ConnValid(c)
    ensures ConnValid(Execute(c, r))
  {
    ApplyKeepsValid(c.working, r);
  }

  /** Referential integrity of both views in every reachable state. Closing the connection,
      or exiting, leaves the durable view, so it holds after that too. */
  lemma {:induction false} RunKeepsValid(c: Conn, rs: seq<Request>)
    requires ConnValid(c)
    ensures ConnValid(Run(c, rs))
    ensures TicketsNameFlights(Run(c, rs).working) && TicketsNameFlights(Run(c, rs).durable)
  {
    if rs != [] {
      RunKeepsValid(c, rs[..|rs| - 1]);
      ExecuteKeepsValid(Run(c, rs[..|rs| - 1]), rs[|rs| - 1]);
    }
  }

  /** SELECT COUNT(*) FROM flight WHERE id = ... */
  function CountFlights(flights: seq<Flight>, id: int): nat {
    if flights == [] then 0
    else CountFlights(flights[..|flights| - 1], id) + (if flights[|flights| - 1].id == id then 1 else 0)
  }

  lemma {:induction false} CountIsMembership(flights: seq<Flight>, id: int)
    requires forall i, j :: 0 <= i < j < |flights| ==> flights[i].id < flights[j].id
    ensures CountFlights(flights, id) == if exists i :: 0 <= i < |flights| && flights[i].id == id then 1 else 0
  {
    if flights != [] {
      var n := |flights| - 1;
      CountIsMembership(flights[..n], id);
      if i :| 0 <= i < n && flights[i].id == id {
        assert flights[..n][i].id == id;
        assert flights[n].id > id;
      } else if flights[n].id == id {
        assert forall i :: 0 <= i < n ==> flights[..n][i] == flights[i];
      }
    }
  }

  class Database {
    var durable: Tables
    var working: Tables
    var open: bool
    var lastRowid: int

    ghost function View(): Conn
      reads this
    {
      Conn(durable, working, open)
    }

    /** Opening an existing file: the connection sees what is durable. */
    constructor (file: Tables)
      requires Valid(file)
      ensures View() == Opened(file) && ConnValid(View())
    {
      durable, working, open := file, file, false;
    }

    /** BEGIN TRANSACTION: inside a transaction it fails, and the caller ignores that. */
    method Begin()
      modifies this`open
      ensures open
    {
      open := true;
    }

    /** END TRANSACTION: everything since the successful BEGIN becomes durable. */
    method End()
      modifies this`open, this`durable
      ensures !open && durable == if old(open) then working else old(durable)
    {
      if open {
        durable := working;
        open := false;
      }
    }

    /** The effect of a statement that changes the tables; outside a transaction it commits. */
    method Write(t: Tables)
      modifies this`working, this`durable
      ensures working == t && durable == if open then old(durable) else t
    {
      working := t;
      if !open {
        durable := t;
      }
    }

    method FlightExists(id: int) returns (found: bool)
      requires Valid(working)
      ensures found == HasFlight(working, id)
    {
      CountIsMembership(working.flights, id);
      var rowcount := CountFlights(working.flights, id);
      found := rowcount == 1;
    }

    method AddTicket(flight: int) returns (ans: int)
      modifies this`working, this`durable, this`lastRowid
      ensures lastRowid == old(working).ticketSeq + 1 && ans == ToInt32(lastRowid)
      ensures working == old(working).(tickets := old(working).tickets[lastRowid := flight], ticketSeq := lastRowid)
      ensures durable == if open then old(durable) else working
    {
      lastRowid := working.ticketSeq + 1;
      Write(working.(tickets := working.tickets[lastRowid := flight], ticketSeq := lastRowid));
      ans := ToInt32(lastRowid);
    }

    /** A purchase of a missing flight returns between BEGIN and END. */
    method Purchase(flight: int) returns (ans: int)
      requires ConnValid(View())
      modifies this
      ensures ConnValid(View())
      ensures View() == Execute(old(View()), Request.Purchase(flight))
      ensures Some(Seat(ans)) == Apply(old(working), Request.Purchase(flight)).1
    {
      assert ConnValid(Execute(View(), Request.Purchase(flight))) by {
        ExecuteKeepsValid(View(), Request.Purchase(flight));
      }
      Begin();
      var found := FlightExists(flight);
      if !found {
        return -1;
      }
      ans := AddTicket(flight);
      End();
    }

    method Cancel(ticket: int)
      requires ConnValid(View())
      modifies this
      ensures ConnValid(View())
      ensures View() == Execute(old(View()), Request.Cancel(ticket))
    {
      ExecuteKeepsValid(View(), Request.Cancel(ticket));
      Write(working.(tickets := working.tickets - {ticket}));
    }

    method AddFlight(departure: int, origin: int, destination: int) returns (ans: int)
      requires ConnValid(View())
      modifies this
      ensures ConnValid(View())
      ensures View() == Execute(old(View()), Request.AddFlight(departure, origin, destination))
      ensures Some(Added(ans)) == Apply(old(working), Request.AddFlight(departure, origin, destination)).1
    {
      ghost var after := Execute(View(), Request.AddFlight(departure, origin, destination));
      ExecuteKeepsValid(View(), Request.AddFlight(departure, origin, destination));
      lastRowid := working.flightSeq + 1;
      var row := Flight(lastRowid, departure, origin, destination);
      Write(working.(flights := working.flights + [row], flightSeq := lastRowid));
      ans := ToInt32(lastRowid);
      assert View() == after;
    }

    /** The SELECT of db_consult_flights: the four queries its if-chain chooses from, and the
        loop that fetches their rows. Wire.dfy puts the rows into the answer's bytes. */
    method SelectFlights(origin: int, destination: int) returns (rows: seq<Flight>)
      ensures rows == Found(working.flights, origin, destination)
    {
      rows := [];
      var flights := working.flights;
      var i := 0;
      while i < |flights|
        invariant 0 <= i <= |flights|
        invariant rows == Found(flights[..i], origin, destination)
      {
        var f := flights[i];
        assert flights[..i + 1][..i] == flights[..i];
        var selected :=
          if origin == -1 && destination == -1 then true
          else if origin == -1 then f.destination == destination
          else if destination == -1 then f.origin == origin
          else f.origin == origin && f.destination == destination;
        if selected {
          rows := rows + [Row(f)];
        }
        i := i + 1;
      }
      assert flights[..|flights|] == flights;
    }
  }
}
