/** The values that travel between the programs: the datagrams of include/database.h,
    seen through the fields that each opcode uses, and the machine integers they hold. */
module Types {

  datatype Option<+T> = None | Some(value: T)

  /** C's `int` on the platforms the program targets: 32 bits, two's complement. */
  predicate IsInt32(x: int) {
    -0x8000_0000 <= x < 0x8000_0000
  }

  /** Conversion of a wider integer to `int`: the low 32 bits, read as a signed number. */
  function ToInt32(x: int): (r: int)
    ensures IsInt32(r)
    ensures IsInt32(x) ==> r == x
    ensures (x - r) % 0x1_0000_0000 == 0
  {
    var low := x % 0x1_0000_0000;
    if low < 0x8000_0000 then low else low - 0x1_0000_0000
  }

  /** A row of the `flight` table. */
  datatype Flight = Flight(id: int, departure: int, origin: int, destination: int)

  /** What a client can put in a datagram. */
  datatype Request =
    | Purchase(flight: int)
    | Consult(origin: int, destination: int)
    | Cancel(ticket: int)
    | Exit
    | Connect
    | Ping(text: string)
    | AddFlight(departure: int, origin: int, destination: int)

  /** What the server puts in the datagram that answers it. */
  datatype Reply =
    | Seat(ticket: int)
    | Flights(rows: seq<Flight>)
    | Canceled
    | Pong(text: string)
    | Added(flight: int)

  datatype Datagram = Ask(request: Request) | Answer(reply: Reply)
}
