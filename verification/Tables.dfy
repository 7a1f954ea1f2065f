/** The two tables of server/db/database.c and what one command, applied on its own, does
    to them. This is the sequential specification that every back end is compared with. */
module Tables {
  import opened Types

  /** `flights` is in rowid order; the two counters are SQLite's AUTOINCREMENT counters. */
  datatype Tables = Tables(flights: seq<Flight>, flightSeq: nat, tickets: map<int, int>, ticketSeq: nat)

  const EMPTY := Tables([], 0, map[], 0)

  predicate HasFlight(t: Tables, id: int) {
    exists i :: 0 <= i < |t.flights| && t.flights[i].id == id
  }

  /** Rowids grow along the table and stay below their counter; a ticket names a flight. */
  ghost predicate Valid(t: Tables) {
    && (forall i, j :: 0 <= i < j < |t.flights| ==> t.flights[i].id < t.flights[j].id)
    && (forall i :: 0 <= i < |t.flights| ==> 1 <= t.flights[i].id <= t.flightSeq)
    && (forall r :: r in t.tickets ==> 1 <= r <= t.ticketSeq)
    && TicketsNameFlights(t)
  }

  ghost predicate TicketsNameFlights(t: Tables) {
    forall r :: r in t.tickets ==> HasFlight(t, t.tickets[r])
  }

  /** The flights a query is meant to find: -1 stands for any airport. */
  predicate Matches(f: Flight, origin: int, destination: int) {
    (origin == -1 || f.origin == origin) && (destination == -1 || f.destination == destination)
  }

  /** A row as sqlite3_column_int delivers it: every column cut to an int. */
  function Row(f: Flight): Flight {
    Flight(ToInt32(f.id), ToInt32(f.departure), ToInt32(f.origin), ToInt32(f.destination))
  }

  function Found(flights: seq<Flight>, origin: int, destination: int): (rows: seq<Flight>)
    ensures |rows| <= |flights|
  {
    if flights == [] then []
    else
      var rest := Found(flights[..|flights| - 1], origin, destination);
      var last := flights[|flights| - 1];
      if Matches(last, origin, destination) then rest + [Row(last)] else rest
  }

  /** One command, run on its own from beginning to end. */
  function Apply(t: Tables, r: Request): (Tables, Option<Reply>) {
    match r
    case Purchase(flight) =>
      if HasFlight(t, flight) then
        var id := t.ticketSeq + 1;
        (t.(tickets := t.tickets[id := flight], ticketSeq := id), Some(Seat(ToInt32(id))))
      else (t, Some(Seat(-1)))
    case Consult(origin, destination) => (t, Some(Flights(Found(t.flights, origin, destination))))
    case Cancel(ticket) => (t.(tickets := t.tickets - {ticket}), Some(Canceled))
    case Ping(text) => (t, Some(Pong(text)))
    case AddFlight(departure, origin, destination) =>
      var id := t.flightSeq + 1;
      (t.(flights := t.flights + [Flight(id, departure, origin, destination)], flightSeq := id),
       Some(Added(ToInt32(id))))
    case Exit => (t, None)
    case Connect => (t, None)
  }

  /** The tables after a list of commands, one after the other. */
  function After(t: Tables, rs: seq<Request>): Tables {
    if rs == [] then t else Apply(After(t, rs[..|rs| - 1]), rs[|rs| - 1]).0
  }

  /** The reply to the i-th command of such a list. */
  function ReplyAt(t: Tables, rs: seq<Request>, i: nat): Option<Reply>
    requires i < |rs|
  {
    Apply(After(t, rs[..i]), rs[i]).1
  }

  lemma AppendKeepsValid(t: Tables, f: Flight)
    requires Valid(t) && f.id == t.flightSeq + 1
    ensures Valid(t.(flights := t.flights + [f], flightSeq := f.id))
  {
    var u := t.(flights := t.flights + [f], flightSeq := f.id);
    forall r | r in u.tickets ensures HasFlight(u, u.tickets[r]) {
      var i :| 0 <= i < |t.flights| && t.flights[i].id == t.tickets[r];
      assert u.flights[i].id == u.tickets[r];
    }
  }

  lemma TicketsKeepValid(t: Tables, u: Tables)
    requires Valid(t) && u.flights == t.flights && u.flightSeq == t.flightSeq
    requires forall r :: r in u.tickets ==> 1 <= r <= u.ticketSeq && HasFlight(t, u.tickets[r])
    ensures Valid(u)
  {
    assert forall id :: HasFlight(t, id) ==> HasFlight(u, id);
  }

  lemma ApplyKeepsValid(t: Tables, r: Request)
    requires Valid(t)
    ensures Valid(Apply(t, r).0)
  {
    match r
    case AddFlight(departure, origin, destination) =>
      AppendKeepsValid(t, Flight(t.flightSeq + 1, departure, origin, destination));
    case Purchase(_) => TicketsKeepValid(t, Apply(t, r).0);
    case Cancel(_) => TicketsKeepValid(t, Apply(t, r).0);
    case _ => assert Apply(t, r).0 == t;
  }

  lemma {:induction false} AfterKeepsValid(t: Tables, rs: seq<Request>)
    requires Valid(t)
    ensures Valid(After(t, rs))
  {
    if rs != [] {
      AfterKeepsValid(t, rs[..|rs| - 1]);
      ApplyKeepsValid(After(t, rs[..|rs| - 1]), rs[|rs| - 1]);
    }
  }

  lemma AfterSnoc(t: Tables, rs: seq<Request>, r: Request)
    ensures After(t, rs + [r]) == Apply(After(t, rs), r).0
    ensures ReplyAt(t, rs + [r], |rs|) == Apply(After(t, rs), r).1
  {
    assert (rs + [r])[..|rs|] == rs;
  }

  /** Reading on does not change the replies already given. */
  lemma ReplyAtPrefix(t: Tables, rs: seq<Request>, r: Request, i: nat)
    requires i < |rs|
    ensures ReplyAt(t, rs + [r], i) == ReplyAt(t, rs, i)
  {
    assert (rs + [r])[..i] == rs[..i];
  }

  /** `rows` lists exactly the matching flights, in table order and each once; `from` tells
      which table row each of them is. */
  ghost predicate Selects(flights: seq<Flight>, origin: int, destination: int, rows: seq<Flight>, from: seq<nat>) {
    && |from| == |rows|
    && (forall k :: 0 <= k < |from| ==> from[k] < |flights|)
    && (forall k :: 0 <= k < |from| ==> Matches(flights[from[k]], origin, destination))
    && (forall k :: 0 <= k < |from| ==> rows[k] == Row(flights[from[k]]))
    && (forall k, l :: 0 <= k < l < |from| ==> from[k] < from[l])
    && (forall i :: 0 <= i < |flights| && Matches(flights[i], origin, destination) ==> i in from)
  }

  ghost function Hits(flights: seq<Flight>, origin: int, destination: int): seq<nat> {
    if flights == [] then []
    else
      var n := |flights| - 1;
      var rest := Hits(flights[..n], origin, destination);
      if Matches(flights[n], origin, destination) then rest + [n] else rest
  }

  lemma {:induction false} FoundIsExact(flights: seq<Flight>, origin: int, destination: int)
    ensures Selects(flights, origin, destination, Found(flights, origin, destination), Hits(flights, origin, destination))
  {
    if flights != [] {
      var n := |flights| - 1;
      FoundIsExact(flights[..n], origin, destination);
      SelectsSnoc(flights[..n], flights[n], origin, destination,
                  Found(flights[..n], origin, destination), Hits(flights[..n], origin, destination));
      assert flights[..n] + [flights[n]] == flights;
    }
  }

  lemma SelectsSnoc(flights: seq<Flight>, f: Flight, origin: int, destination: int, rows: seq<Flight>, from: seq<nat>)
    requires Selects(flights, origin, destination, rows, from)
    ensures Matches(f, origin, destination) ==>
              Selects(flights + [f], origin, destination, rows + [Row(f)], from + [|flights|])
    ensures !Matches(f, origin, destination) ==> Selects(flights + [f], origin, destination, rows, from)
  {
    var all := flights + [f];
    var ext := from + [|flights|];
    assert ext[|from|] == |flights|;
    forall i | 0 <= i < |all| && Matches(all[i], origin, destination)
      ensures i in ext && (i < |flights| ==> i in from)
    {
      if i < |flights| {
        assert all[i] == flights[i];
        var k :| 0 <= k < |from| && from[k] == i;
        assert ext[k] == i;
      }
    }
  }
}
