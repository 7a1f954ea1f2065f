/** server/libserver.c: which database function answers which opcode. */
module Server {
  import opened Types
  import opened Tables
  import opened Database

  /** The reply, or None for the opcodes that get none. It is the sequential specification's
      reply, and the database moves as that command moves it. */
  method ExecuteDatagram(db: Database, request: Request) returns (ans: Option<Reply>)
    requires ConnValid(db.View())
    modifies db
    ensures ConnValid(db.View()) && db.View() == Execute(old(db.View()), request)
    ensures ans == Apply(old(db.working), request).1
    ensures ans == None <==> request == Connect || request == Exit
  {
    match request {
      case Consult(origin, destination) =>
        var rows := db.SelectFlights(origin, destination);
        ans := Some(Flights(rows));
      case Purchase(flight) =>
        var seat := db.Purchase(flight);
        ans := Some(Seat(seat));
      case Cancel(ticket) =>
        db.Cancel(ticket);
        ans := Some(Canceled);
      case Ping(text) =>
        ans := Some(Pong(text));
      case AddFlight(departure, origin, destination) =>
        var id := db.AddFlight(departure, origin, destination);
        ans := Some(Added(id));
      case Connect =>
        return None;
      case Exit =>
        return None;
    }
  }

  /** include/database.h: only a message-queue build has a sender field, and with it a larger
      header. Sizes are those of an LP64 machine. */
  datatype Build = SharedMemory | MessageQueue

  const ENTRY_SIZE := 152
  const DATAGRAM_MAXSIZE := 4096
  const SHMEM_SIZE := 4096

  /** sizeof(DB_DATAGRAM) */
  function HeaderSize(b: Build): nat {
    match b
    case SharedMemory => 168
    case MessageQueue => 176
  }

  /** The size field as the code that builds each datagram sets it. */
  function Size(b: Build, d: Datagram): nat {
    match d
    case Ask(Ping(text)) => HeaderSize(b) + 5 + |text|
    case Ask(_) => HeaderSize(b)
    case Answer(Pong(text)) => HeaderSize(b) + |text| + 1
    case Answer(Flights(rows)) => HeaderSize(b) + ENTRY_SIZE * |rows|
    case Answer(_) => HeaderSize(b)
  }

  predicate Fits(b: Build, d: Datagram) {
    Size(b, d) <= SHMEM_SIZE
  }

  /** In either build an answer with 25 flights can be sent and one with 26 cannot. */
  lemma TwentyFiveFlightsFit(b: Build, rows: seq<Flight>)
    ensures Fits(b, Answer(Flights(rows))) <==> |rows| <= 25
  {}
}
