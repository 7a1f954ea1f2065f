/** How a list of flights crosses a back end: the result loop of db_consult_flights, the copies
    of ipc_send and ipc_receive through the shared page, and the loop of parse_answer, over
    the byte layout of include/database.h. */
module Wire {
  import opened Types
  import opened Server
  import opened Bytes

  // offsets in a packed DB_ENTRY: id 0, departure 4, seats 12, is_empty 140, origin 144, destination 148
  const DEPARTURE_AT := 4
  const ORIGIN_AT := DEPARTURE_AT + 8 + 32 * 4 + 4
  const DESTINATION_AT := ORIGIN_AT + 4

  const OP_CONSULT := 1
  const OPCODE_AT := 8

  // offsets in a DB_DATAGRAM: size 0, opcode 8, then (sender,) _data and _raw_data
  function DataAt(b: Build): nat {
    if b == MessageQueue then 16 else 12
  }

  function ResultsAt(b: Build): nat {
    if b == MessageQueue then 20 else 16
  }

  function EntryAt(b: Build, i: nat): nat {
    ResultsAt(b) + ENTRY_SIZE * i
  }

  predicate IsRow(f: Flight) {
    IsInt32(f.id) && IsInt32(f.departure) && IsInt32(f.origin) && IsInt32(f.destination)
  }

  // ---- reading a datagram ----

  function IntAt(s: seq<byte>, off: nat): int
    requires off + 4 <= |s|
  {
    DecodeSigned(s[off..off + 4])
  }

  function LongAt(s: seq<byte>, off: nat): int
    requires off + 8 <= |s|
  {
    DecodeSigned(s[off..off + 8])
  }

  function SizeField(s: seq<byte>): nat
    requires 8 <= |s|
  {
    Decode(s[0..8])
  }

  function Entry(s: seq<byte>, off: nat): Flight
    requires off + ENTRY_SIZE <= |s|
  {
    Flight(IntAt(s, off), LongAt(s, off + DEPARTURE_AT), IntAt(s, off + ORIGIN_AT), IntAt(s, off + DESTINATION_AT))
  }

  /** The datagram in `s` says that it holds exactly `rows`. */
  ghost predicate Carries(b: Build, s: seq<byte>, rows: seq<Flight>) {
    && EntryAt(b, |rows|) <= |s| && HeaderSize(b) <= |s|
    && SizeField(s) == Size(b, Answer(Flights(rows)))
    && IntAt(s, OPCODE_AT) == OP_CONSULT && IntAt(s, DataAt(b)) == |rows|
    && (forall i :: 0 <= i < |rows| ==> EntryAt(b, i) + ENTRY_SIZE <= |s| && Entry(s, EntryAt(b, i)) == rows[i])
  }

  // ---- filling the answer ----

  lemma ReadBackInt(s: seq<byte>, off: nat, v: int)
    requires IsInt32(v) && off + 4 <= |s|
    ensures Pow256(4) == 0x1_0000_0000
    ensures IntAt(Patched(s, off, EncodeSigned(v, 4)), off) == v
  {
    Widths();
    SignedRoundTrip(v, 4);
    ReadPatched(s, off, EncodeSigned(v, 4));
  }

  method PutInt(a: array<byte>, off: nat, v: int)
    requires off + 4 <= a.Length && IsInt32(v)
    modifies a
    ensures Pow256(4) == 0x1_0000_0000
    ensures a[..] == Patched(old(a[..]), off, EncodeSigned(v, 4)) && IntAt(a[..], off) == v
  {
    ReadBackInt(a[..], off, v);
    Copy(a, off, EncodeSigned(v, 4));
  }

  /** The local DB_ENTRY of the result loop: four fields are set, the seats and the flag keep
      whatever was on the stack. */
  method MakeEntry(f: Flight) returns (entry: array<byte>)
    requires IsRow(f)
    ensures fresh(entry) && entry.Length == ENTRY_SIZE && Entry(entry[..], 0) == f
  {
    Widths();
    entry := new byte[ENTRY_SIZE];
    PutInt(entry, 0, f.id);
    ghost var s1 := entry[..];
    SignedRoundTrip(f.departure, 8);
    Copy(entry, DEPARTURE_AT, EncodeSigned(f.departure, 8));
    ghost var s2 := entry[..];
    ReadPatched(s1, DEPARTURE_AT, EncodeSigned(f.departure, 8));
    ReadBeside(s1, DEPARTURE_AT, EncodeSigned(f.departure, 8), 0, 4);
    PutInt(entry, ORIGIN_AT, f.origin);
    ghost var s3 := entry[..];
    ReadBeside(s2, ORIGIN_AT, EncodeSigned(f.origin, 4), 0, 4);
    ReadBeside(s2, ORIGIN_AT, EncodeSigned(f.origin, 4), DEPARTURE_AT, 12);
    PutInt(entry, DESTINATION_AT, f.destination);
    ReadBeside(s3, DESTINATION_AT, EncodeSigned(f.destination, 4), 0, 4);
    ReadBeside(s3, DESTINATION_AT, EncodeSigned(f.destination, 4), DEPARTURE_AT, 12);
    ReadBeside(s3, DESTINATION_AT, EncodeSigned(f.destination, 4), ORIGIN_AT, 148);
  }

  lemma EntryWritten(s: seq<byte>, off: nat, e: seq<byte>)
    requires |e| == ENTRY_SIZE && off + ENTRY_SIZE <= |s|
    ensures Entry(Patched(s, off, e), off) == Entry(e, 0)
  {
    var p := Patched(s, off, e);
    assert p[off..off + 4] == e[0..4];
    assert p[off + DEPARTURE_AT..off + DEPARTURE_AT + 8] == e[DEPARTURE_AT..DEPARTURE_AT + 8];
    assert p[off + ORIGIN_AT..off + ORIGIN_AT + 4] == e[ORIGIN_AT..ORIGIN_AT + 4];
    assert p[off + DESTINATION_AT..off + DESTINATION_AT + 4] == e[DESTINATION_AT..DESTINATION_AT + 4];
  }

  lemma EntryKept(s: seq<byte>, off: nat, e: seq<byte>, at: nat)
    requires off + |e| <= |s| && at + ENTRY_SIZE <= |s| && (at + ENTRY_SIZE <= off || off + |e| <= at)
    ensures Entry(Patched(s, off, e), at) == Entry(s, at)
  {
    ReadBeside(s, off, e, at, at + 4);
    ReadBeside(s, off, e, at + DEPARTURE_AT, at + DEPARTURE_AT + 8);
    ReadBeside(s, off, e, at + ORIGIN_AT, at + ORIGIN_AT + 4);
    ReadBeside(s, off, e, at + DESTINATION_AT, at + DESTINATION_AT + 4);
  }

  ghost predicate Entries(b: Build, s: seq<byte>, rows: seq<Flight>) {
    forall i :: 0 <= i < |rows| ==> EntryAt(b, i) + ENTRY_SIZE <= |s| && Entry(s, EntryAt(b, i)) == rows[i]
  }

  lemma EntriesExtend(b: Build, s: seq<byte>, rows: seq<Flight>, f: Flight, e: seq<byte>)
    requires Entries(b, s, rows) && |e| == ENTRY_SIZE && Entry(e, 0) == f && EntryAt(b, |rows|) + ENTRY_SIZE <= |s|
    ensures Entries(b, Patched(s, EntryAt(b, |rows|), e), rows + [f])
  {
    EntryWritten(s, EntryAt(b, |rows|), e);
    forall i | 0 <= i < |rows| ensures Entry(Patched(s, EntryAt(b, |rows|), e), EntryAt(b, i)) == rows[i] {
      EntryKept(s, EntryAt(b, |rows|), e, EntryAt(b, i));
    }
  }

  /** Writing into the header leaves the entries alone. */
  lemma EntriesKept(b: Build, s: seq<byte>, rows: seq<Flight>, off: nat, p: seq<byte>)
    requires Entries(b, s, rows) && off + |p| <= ResultsAt(b) <= |s|
    ensures Entries(b, Patched(s, off, p), rows)
  {
    forall i | 0 <= i < |rows| ensures Entry(Patched(s, off, p), EntryAt(b, i)) == rows[i] {
      EntryKept(s, off, p, EntryAt(b, i));
    }
  }

  /** Cutting a datagram off behind its last entry, or letting it grow, keeps the entries. */
  lemma EntriesSurviveResize(b: Build, s: seq<byte>, d: seq<byte>, n: nat, rows: seq<Flight>)
    requires Entries(b, s, rows) && EntryAt(b, |rows|) <= n <= |s| && n <= |d| && d[..n] == s[..n]
    ensures Entries(b, d, rows)
  {
    forall i | 0 <= i < |rows| ensures EntryAt(b, i) + ENTRY_SIZE <= |d| && Entry(d, EntryAt(b, i)) == rows[i] {
      var at := EntryAt(b, i);
      forall from: nat, to: nat | from <= to <= n ensures d[from..to] == s[from..to] {
        assert d[from..to] == d[..n][from..to] && s[from..to] == s[..n][from..to];
      }
    }
  }

  /** The result loop writes inside the buffer exactly for up to 26 rows. */
  lemma FillStaysInBuffer(b: Build, n: nat)
    ensures (forall i :: 0 <= i < n ==> EntryAt(b, i) + ENTRY_SIZE <= DATAGRAM_MAXSIZE) <==> n <= 26
  {
    if n > 26 {
      assert EntryAt(b, 26) + ENTRY_SIZE > DATAGRAM_MAXSIZE;
    }
  }

  /** One round of the result loop: the entry is made and copied behind those already there. */
  method PutEntry(b: Build, buffer: array<byte>, f: Flight, rowcount: nat, ghost done: seq<Flight>)
    requires rowcount == |done| < 26 && IsRow(f) && buffer.Length == DATAGRAM_MAXSIZE
    requires Entries(b, buffer[..], done)
    modifies buffer
    ensures Entries(b, buffer[..], done + [f])
  {
    var entry := MakeEntry(f);
    EntriesExtend(b, buffer[..], done, f, entry[..]);
    Copy(buffer, EntryAt(b, rowcount), entry[..]);
  }

  method FillRows(b: Build, rows: seq<Flight>, buffer: array<byte>)
    requires |rows| <= 26 && (forall i :: 0 <= i < |rows| ==> IsRow(rows[i]))
    requires buffer.Length == DATAGRAM_MAXSIZE
    modifies buffer
    ensures Entries(b, buffer[..], rows)
  {
    var rowcount := 0;
    while rowcount < |rows|
      invariant 0 <= rowcount <= |rows|
      invariant Entries(b, buffer[..], rows[..rowcount])
    {
      PutEntry(b, buffer, rows[rowcount], rowcount, rows[..rowcount]);
      assert rows[..rowcount] + [rows[rowcount]] == rows[..rowcount + 1];
      rowcount := rowcount + 1;
    }
    assert rows[..|rows|] == rows;
  }

  lemma HeaderWritten(b: Build, s: seq<byte>, rows: seq<Flight>)
    requires |s| == DATAGRAM_MAXSIZE && |rows| <= 26 && Entries(b, s, rows)
    ensures Pow256(4) == 0x1_0000_0000
    ensures var s1 := Patched(s, DataAt(b), EncodeSigned(|rows|, 4));
            var s2 := Patched(s1, 0, Encode(Size(b, Answer(Flights(rows))), 8));
            var s3 := Patched(s2, OPCODE_AT, EncodeSigned(OP_CONSULT, 4));
            && Entries(b, s3, rows) && IntAt(s3, DataAt(b)) == |rows|
            && SizeField(s3) == Size(b, Answer(Flights(rows))) && IntAt(s3, OPCODE_AT) == OP_CONSULT
  {
    Widths();
    var c, z, o := EncodeSigned(|rows|, 4), Encode(Size(b, Answer(Flights(rows))), 8), EncodeSigned(OP_CONSULT, 4);
    var s1 := Patched(s, DataAt(b), c);
    var s2 := Patched(s1, 0, z);
    EntriesKept(b, s, rows, DataAt(b), c);
    EntriesKept(b, s1, rows, 0, z);
    EntriesKept(b, s2, rows, 8, o);
    ReadBackInt(s, DataAt(b), |rows|);
    ReadBeside(s1, 0, z, DataAt(b), DataAt(b) + 4);
    ReadBeside(s2, 8, o, DataAt(b), DataAt(b) + 4);
    ReadPatched(s1, 0, z);
    DecodeEncode(Size(b, Answer(Flights(rows))), 8);
    ReadBeside(s2, 8, o, 0, 8);
    ReadBackInt(s2, OPCODE_AT, OP_CONSULT);
  }

  /** db_consult_flights from the rows on: fill, set the header, cut to size. The buffer has
      room for 26 rows and the code does not check for more. */
  method ConsultAnswer(b: Build, rows: seq<Flight>) returns (datagram: array<byte>)
    requires |rows| <= 26 && (forall i :: 0 <= i < |rows| ==> IsRow(rows[i]))
    ensures fresh(datagram) && datagram.Length == Size(b, Answer(Flights(rows)))
    ensures Carries(b, datagram[..], rows)
  {
    var buffer := new byte[DATAGRAM_MAXSIZE];
    FillRows(b, rows, buffer);
    HeaderWritten(b, buffer[..], rows);
    PutInt(buffer, DataAt(b), |rows|);
    var size := Size(b, Answer(Flights(rows)));
    Copy(buffer, 0, Encode(size, 8));
    PutInt(buffer, OPCODE_AT, OP_CONSULT);
    ghost var full := buffer[..];

    // realloc
    datagram := new byte[size];
    var kept := if size < DATAGRAM_MAXSIZE then size else DATAGRAM_MAXSIZE;
    Copy(datagram, 0, buffer[..kept]);
    assert datagram[..][..kept] == full[..kept];
    ResizeKeepsAnswer(b, full, datagram[..], kept, rows);
  }

  lemma SamePrefix(s: seq<byte>, d: seq<byte>, n: nat, from: nat, to: nat)
    requires from <= to <= n <= |s| && n <= |d| && d[..n] == s[..n]
    ensures d[from..to] == s[from..to]
  {
    assert d[..n][from..to] == d[from..to];
    assert s[..n][from..to] == s[from..to];
  }

  lemma ResizeKeepsAnswer(b: Build, full: seq<byte>, d: seq<byte>, kept: nat, rows: seq<Flight>)
    requires Entries(b, full, rows) && EntryAt(b, |rows|) <= kept <= |full| && HeaderSize(b) <= kept <= |d|
    requires d[..kept] == full[..kept]
    requires SizeField(full) == Size(b, Answer(Flights(rows)))
    requires IntAt(full, OPCODE_AT) == OP_CONSULT && IntAt(full, DataAt(b)) == |rows|
    ensures Carries(b, d, rows)
  {
    EntriesSurviveResize(b, full, d, kept, rows);
    SamePrefix(full, d, kept, 0, 8);
    SamePrefix(full, d, kept, OPCODE_AT, OPCODE_AT + 4);
    SamePrefix(full, d, kept, DataAt(b), DataAt(b) + 4);
  }

  // ---- reading the answer ----

  lemma EntriesRead(b: Build, s: seq<byte>, rows: seq<Flight>)
    requires Entries(b, s, rows) && EntryAt(b, |rows|) + ENTRY_SIZE <= |s|
    ensures Entries(b, s, rows + [Entry(s, EntryAt(b, |rows|))])
  {}

  /** The loop of parse_answer for OP_CONSULT. */
  method ParseConsultAnswer(b: Build, datagram: array<byte>) returns (rows: seq<Flight>)
    requires HeaderSize(b) <= datagram.Length
    requires var count := IntAt(datagram[..], DataAt(b)); count >= 0 ==> EntryAt(b, count) <= datagram.Length
    ensures var count := IntAt(datagram[..], DataAt(b)); |rows| == if count < 0 then 0 else count
    ensures Entries(b, datagram[..], rows)
  {
    var count := IntAt(datagram[..], DataAt(b));
    rows := [];
    var i := 0;
    while i < count
      invariant 0 <= i && (count >= 0 ==> i <= count) && (count < 0 ==> i == 0)
      invariant |rows| == i && Entries(b, datagram[..], rows)
    {
      EntriesRead(b, datagram[..], rows);
      rows := rows + [Entry(datagram[..], EntryAt(b, i))];
      i := i + 1;
    }
  }

  /** What a datagram carries is unique, so what is parsed is what was filled in. */
  lemma CarriesIsUnique(b: Build, s: seq<byte>, rows: seq<Flight>, parsed: seq<Flight>)
    requires Carries(b, s, rows) && Entries(b, s, parsed) && |parsed| == IntAt(s, DataAt(b))
    ensures parsed == rows
  {
    forall i | 0 <= i < |rows| ensures parsed[i] == rows[i] {}
  }
}
