/** What any list of commands has made of the two tables, told from the commands alone: which
    flights and tickets are there, and what each command was answered. */
module History {
  import opened Types
  import opened Tables
  import opened Database
  import opened Durability

  // ---- flights ----

  /** The addflights among the commands, in order. */
  function AddsIn(rs: seq<Request>): (adds: seq<Request>)
    ensures |adds| <= |rs|
  {
    if rs == [] then []
    else
      var n := |rs| - 1;
      AddsIn(rs[..n]) + (if rs[n].AddFlight? then [rs[n]] else [])
  }

  lemma {:induction false} AddsInPlace(rs: seq<Request>, i: nat)
    requires i < |rs|
    ensures |AddsIn(rs[..i])| <= |AddsIn(rs)|
    ensures rs[i].AddFlight? ==> |AddsIn(rs[..i])| < |AddsIn(rs)| && AddsIn(rs)[|AddsIn(rs[..i])|] == rs[i]
  {
    var n := |rs| - 1;
    if i < n {
      assert rs[..n][..i] == rs[..i];
      AddsInPlace(rs[..n], i);
    }
  }

  /** The row of an addflight that is given the rowid `id`. */
  ghost predicate IsRowOf(f: Flight, r: Request, id: int) {
    r.AddFlight? && f.id == id && f.departure == r.departure && f.origin == r.origin && f.destination == r.destination
  }

  /** Main result. The flights are those there before and one row for each addflight, in order,
      with the next rowids and with that command's departure, origin and destination. */
  lemma {:induction false} FlightsAreHistory(t: Tables, rs: seq<Request>)
    ensures var u := After(t, rs);
            var adds := AddsIn(rs);
            && u.flightSeq == t.flightSeq + |adds|
            && |u.flights| == |t.flights| + |adds| && u.flights[..|t.flights|] == t.flights
            && forall k :: 0 <= k < |adds| ==> IsRowOf(u.flights[|t.flights| + k], adds[k], t.flightSeq + 1 + k)
  {
    if rs != [] {
      var n := |rs| - 1;
      FlightsAreHistory(t, rs[..n]);
    }
  }

  /** A flight is on sale iff it was before or one of the addflights was given its number. */
  lemma FlightIsOnSale(t: Tables, rs: seq<Request>, flight: int)
    ensures HasFlight(After(t, rs), flight) <==>
              HasFlight(t, flight) || t.flightSeq < flight <= t.flightSeq + |AddsIn(rs)|
  {
    FlightsAreHistory(t, rs);
    var u := After(t, rs);
    if HasFlight(u, flight) {
      var i :| 0 <= i < |u.flights| && u.flights[i].id == flight;
      if i < |t.flights| {
        assert t.flights[i] == u.flights[..|t.flights|][i];
      } else {
        assert IsRowOf(u.flights[|t.flights| + (i - |t.flights|)], AddsIn(rs)[i - |t.flights|], t.flightSeq + 1 + (i - |t.flights|));
      }
    }
    if HasFlight(t, flight) {
      var i :| 0 <= i < |t.flights| && t.flights[i].id == flight;
      assert u.flights[i] == u.flights[..|t.flights|][i];
    }
    if t.flightSeq < flight <= t.flightSeq + |AddsIn(rs)| {
      var k := flight - t.flightSeq - 1;
      assert IsRowOf(u.flights[|t.flights| + k], AddsIn(rs)[k], t.flightSeq + 1 + k);
    }
  }

  // ---- tickets ----

  lemma {:induction false} TicketSeqCounts(t: Tables, rs: seq<Request>)
    ensures After(t, rs).ticketSeq == t.ticketSeq + |Issued(t, rs)|
  {
    if rs != [] {
      TicketSeqCounts(t, rs[..|rs| - 1]);
    }
  }

  /** The i-th command is a sale and its ticket has the number `id`. */
  ghost predicate IssuedAt(t: Tables, rs: seq<Request>, i: nat, id: int) {
    i < |rs| && Sold(t, rs, i) && id == t.ticketSeq + |Issued(t, rs[..i])| + 1
  }

  /** No command from the i-th on cancels ticket `id`. */
  predicate Kept(rs: seq<Request>, i: nat, id: int) {
    forall j :: i <= j < |rs| ==> rs[j] != Cancel(id)
  }

  /** The i-th command has sold ticket `id` for that flight, and none has cancelled it since. */
  ghost predicate SoldAndKept(t: Tables, rs: seq<Request>, i: nat, id: int, flight: int) {
    IssuedAt(t, rs, i, id) && rs[i] == Purchase(flight) && Kept(rs, i + 1, id)
  }

  /** Ticket `id` was there, or has been sold, for that flight, and has not been cancelled since. */
  ghost predicate Ticketed(t: Tables, rs: seq<Request>, id: int, flight: int) {
    || (HasTicket(t, id, flight) && Kept(rs, 0, id))
    || exists i: nat :: SoldAndKept(t, rs, i, id, flight)
  }

  ghost predicate HasTicket(t: Tables, id: int, flight: int) {
    id in t.tickets && t.tickets[id] == flight
  }

  lemma {:induction false} IssuedGrows(t: Tables, rs: seq<Request>, i: nat)
    requires i <= |rs|
    ensures |Issued(t, rs[..i])| <= |Issued(t, rs)|
  {
    if i < |rs| {
      var n := |rs| - 1;
      assert rs[..n][..i] == rs[..i];
      IssuedGrows(t, rs[..n], i);
    } else {
      assert rs[..i] == rs;
    }
  }

  lemma IssuedAtPrefix(t: Tables, rs: seq<Request>, n: nat, i: nat, id: int)
    requires i < n <= |rs|
    ensures IssuedAt(t, rs[..n], i, id) <==> IssuedAt(t, rs, i, id)
  {
    PrefixStatus(t, rs, n, i);
    assert rs[..n][..i] == rs[..i];
  }

  /** A number issued before the n-th command is not above what the counter has come to. */
  lemma IssuedAtIsOld(t: Tables, rs: seq<Request>, n: nat, i: nat, id: int)
    requires i < n <= |rs| && IssuedAt(t, rs, i, id)
    ensures id <= t.ticketSeq + |Issued(t, rs[..n])|
  {
    var before := rs[..i + 1];
    assert before[..i] == rs[..i];
    PrefixStatus(t, rs, i + 1, i);
    assert |Issued(t, before)| == |Issued(t, rs[..i])| + 1;
    assert rs[..n][..i + 1] == before;
    IssuedGrows(t, rs[..n], i + 1);
  }

  lemma KeptSnoc(rs: seq<Request>, i: nat, id: int)
    requires rs != [] && i <= |rs| - 1
    ensures Kept(rs, i, id) <==> Kept(rs[..|rs| - 1], i, id) && rs[|rs| - 1] != Cancel(id)
  {}

  lemma SoldAndKeptSnoc(t: Tables, rs: seq<Request>, i: nat, id: int, flight: int)
    requires rs != [] && i < |rs| - 1
    ensures SoldAndKept(t, rs, i, id, flight) <==>
              SoldAndKept(t, rs[..|rs| - 1], i, id, flight) && rs[|rs| - 1] != Cancel(id)
  {
    IssuedAtPrefix(t, rs, |rs| - 1, i, id);
    KeptSnoc(rs, i + 1, id);
  }

  /** All but the last command decide as before, unless the last one cancels or issues `id`. */
  lemma TicketedSnoc(t: Tables, rs: seq<Request>, id: int, flight: int)
    requires rs != []
    ensures var n := |rs| - 1;
            Ticketed(t, rs, id, flight) <==>
              || (Ticketed(t, rs[..n], id, flight) && rs[n] != Cancel(id))
              || (IssuedAt(t, rs, n, id) && rs[n] == Purchase(flight))
  {
    var n := |rs| - 1;
    KeptSnoc(rs, 0, id);
    forall i: nat | i < n
      ensures SoldAndKept(t, rs, i, id, flight) <==> SoldAndKept(t, rs[..n], i, id, flight) && rs[n] != Cancel(id)
    {
      SoldAndKeptSnoc(t, rs, i, id, flight);
    }
    assert SoldAndKept(t, rs, n, id, flight) <==> IssuedAt(t, rs, n, id) && rs[n] == Purchase(flight);
  }

  /** The next number is new. */
  lemma NextIsNew(t: Tables, rs: seq<Request>, n: nat, flight: int)
    requires Valid(t) && n < |rs|
    ensures !Ticketed(t, rs[..n], t.ticketSeq + |Issued(t, rs[..n])| + 1, flight)
  {
    var id := t.ticketSeq + |Issued(t, rs[..n])| + 1;
    forall i: nat | i < n ensures !IssuedAt(t, rs[..n], i, id) {
      if IssuedAt(t, rs[..n], i, id) {
        assert rs[..n][..n] == rs[..n];
        IssuedAtIsOld(t, rs[..n], n, i, id);
      }
    }
  }

  /** Main result. A ticket is there after the commands iff it was there before or one of them
      sold it, and none cancelled it since; it names the flight it was sold for. */
  lemma {:induction false} TicketsAreHistory(t: Tables, rs: seq<Request>, id: int, flight: int)
    requires Valid(t)
    ensures HasTicket(After(t, rs), id, flight) <==> Ticketed(t, rs, id, flight)
  {
    if rs != [] {
      var n := |rs| - 1;
      TicketsAreHistory(t, rs[..n], id, flight);
      TicketedSnoc(t, rs, id, flight);
      TicketSeqCounts(t, rs[..n]);
      NextIsNew(t, rs, n, flight);
    }
  }

  // ---- replies ----

  /** What `r` is answered after the commands `before`. */
  ghost predicate IsAnswer(t: Tables, before: seq<Request>, r: Request, reply: Option<Reply>) {
    match r
    case Purchase(flight) =>
      reply == Some(Seat(if HasFlight(t, flight) || t.flightSeq < flight <= t.flightSeq + |AddsIn(before)|
                         then ToInt32(t.ticketSeq + |Issued(t, before)| + 1) else -1))
    case Consult(origin, destination) =>
      && reply.Some? && reply.value.Flights?
      && Selects(After(t, before).flights, origin, destination, reply.value.rows,
                 Hits(After(t, before).flights, origin, destination))
    case Cancel(_) => reply == Some(Canceled)
    case Ping(text) => reply == Some(Pong(text))
    case AddFlight(_, _, _) => reply == Some(Added(ToInt32(t.flightSeq + |AddsIn(before)| + 1)))
    case Exit => reply == None
    case Connect => reply == None
  }

  /** Main result. What each command is answered, from the commands before it. */
  lemma RepliesAreHistory(t: Tables, rs: seq<Request>, i: nat)
    requires i < |rs|
    ensures IsAnswer(t, rs[..i], rs[i], ReplyAt(t, rs, i))
  {
    var before := rs[..i];
    match rs[i]
    case Purchase(flight) =>
      FlightIsOnSale(t, before, flight);
      TicketSeqCounts(t, before);
    case Consult(origin, destination) => FoundIsExact(After(t, before).flights, origin, destination);
    case AddFlight(_, _, _) => FlightsAreHistory(t, before);
    case _ =>
  }

  predicate IsSmall(f: Flight) {
    IsInt32(f.id) && IsInt32(f.departure) && IsInt32(f.origin) && IsInt32(f.destination)
  }

  /** Where every column fits an int, a consultation shows the flights themselves: each matching
      one, in table order, each once. */
  lemma ConsultShowsFlights(flights: seq<Flight>, origin: int, destination: int)
    requires forall i :: 0 <= i < |flights| ==> IsSmall(flights[i])
    ensures var rows := Found(flights, origin, destination);
            var from := Hits(flights, origin, destination);
            && |rows| == |from| && (forall k :: 0 <= k < |from| ==> from[k] < |flights| && rows[k] == flights[from[k]])
            && (forall k, l :: 0 <= k < l < |from| ==> from[k] < from[l])
            && (forall i :: 0 <= i < |flights| ==>
                  (i in from <==>
                     ((origin == -1 || flights[i].origin == origin)
                      && (destination == -1 || flights[i].destination == destination))))
  {
    FoundIsExact(flights, origin, destination);
  }

  // ---- the file, over any sessions ----

  /** What of the sessions' commands is in the file: of each session, those up to its commit
      point. */
  ghost function Committed(t: Tables, sessions: seq<seq<Request>>): seq<Request> {
    if sessions == [] then []
    else
      var n := |sessions| - 1;
      var k := CommitPoint(FileAfter(t, sessions[..n]), sessions[n]);
      Committed(t, sessions[..n]) + sessions[n][..k]
  }

  lemma {:induction false} AfterConcat(t: Tables, a: seq<Request>, b: seq<Request>)
    ensures After(t, a + b) == After(After(t, a), b)
  {
    if b == [] {
      assert a + b == a;
    } else {
      var n := |b| - 1;
      AfterConcat(t, a, b[..n]);
      assert (a + b)[..|a + b| - 1] == a + b[..n];
    }
  }

  /** The file is what these commands, one after the other, make of it; so FlightsAreHistory and
      TicketsAreHistory say what is in it. */
  lemma {:induction false} FileIsHistory(t: Tables, sessions: seq<seq<Request>>)
    ensures FileAfter(t, sessions) == After(t, Committed(t, sessions))
  {
    if sessions != [] {
      var n := |sessions| - 1;
      var file := FileAfter(t, sessions[..n]);
      FileIsHistory(t, sessions[..n]);
      DurablePrefix(file, sessions[n]);
      AfterConcat(t, Committed(t, sessions[..n]), sessions[n][..CommitPoint(file, sessions[n])]);
    }
  }

  /** What a command of the second list finds, it finds in the two lists together. */
  lemma SoldInConcat(t: Tables, a: seq<Request>, b: seq<Request>, i: nat)
    requires i < |b| && Sold(After(t, a), b, i)
    ensures (a + b)[|a| + i] == b[i] && Sold(t, a + b, |a| + i)
  {
    AfterConcat(t, a, b[..i]);
    assert (a + b)[..|a| + i] == a + b[..i];
  }

  /** No sale of any session is missing there. */
  lemma SalesAreCommitted(t: Tables, sessions: seq<seq<Request>>, i: nat)
    requires sessions != []
    requires var n := |sessions| - 1; i < |sessions[n]| && Sold(FileAfter(t, sessions[..n]), sessions[n], i)
    ensures var n := |sessions| - 1;
            var all := Committed(t, sessions);
            var j := |Committed(t, sessions[..n])| + i;
            j < |all| && all[j] == sessions[n][i] && Sold(t, all, j)
  {
    var n := |sessions| - 1;
    var last := sessions[n];
    var file := FileAfter(t, sessions[..n]);
    var k := CommitPoint(file, last);
    assert i < k by { ExitLosesNoSale(file, last, i); }
    assert Sold(file, last[..k], i) by { PrefixStatus(file, last, k, i); }
    assert file == After(t, Committed(t, sessions[..n])) by { FileIsHistory(t, sessions[..n]); }
    SoldInConcat(t, Committed(t, sessions[..n]), last[..k], i);
  }

  /** A ticket is in the file iff it was sold in some session, or there from the start, and no
      command that reached the file cancelled it since. */
  lemma TicketsInFile(t: Tables, sessions: seq<seq<Request>>, id: int, flight: int)
    requires Valid(t)
    ensures HasTicket(FileAfter(t, sessions), id, flight) <==> Ticketed(t, Committed(t, sessions), id, flight)
  {
    FileIsHistory(t, sessions);
    TicketsAreHistory(t, Committed(t, sessions), id, flight);
  }
}
