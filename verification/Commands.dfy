/** command_to_datagram of client/libclient.c: from a command line to a request. */
module Commands {
  import opened Types
  import opened Tables
  import opened Tokenizer
  import opened Parser

  // ---- numbers ----

  predicate IsDigit(c: char) {
    '0' <= c <= '9'
  }

  function DigitValue(c: char): nat
    requires IsDigit(c)
  {
    c as int - '0' as int
  }

  function DigitChar(d: nat): (c: char)
    requires d < 10
    ensures IsDigit(c) && DigitValue(c) == d
  {
    ('0' as int + d) as char
  }

  predicate IsSpace(c: char) {
    c == ' ' || '\t' <= c <= '\r'
  }

  function SkipSpaces(s: string): string {
    if s != "" && IsSpace(s[0]) then SkipSpaces(s[1..]) else s
  }

  /** The digits at the front of `s`, read after `acc`. */
  function Leading(s: string, acc: nat): nat {
    if s == "" || !IsDigit(s[0]) then acc else Leading(s[1..], 10 * acc + DigitValue(s[0]))
  }

  /** C's atoi: spaces, a sign, digits, and anything after them. Beyond the range of int, where C
      leaves the result open, the low 32 bits are taken. */
  function Atoi(s: string): (n: int)
    ensures IsInt32(n)
  {
    var t := SkipSpaces(s);
    ToInt32(if t != "" && t[0] == '-' then 0 - Leading(t[1..], 0)
            else if t != "" && t[0] == '+' then Leading(t[1..], 0)
            else Leading(t, 0))
  }

  function Digits(n: nat): (s: string)
    ensures s != "" && forall i :: 0 <= i < |s| ==> IsDigit(s[i])
  {
    if n < 10 then [DigitChar(n)] else Digits(n / 10) + [DigitChar(n % 10)]
  }

  function Decimal(n: int): (s: string)
    ensures s != "" && forall i :: 0 <= i < |s| ==> IsDigit(s[i]) || s[i] == '-'
  {
    if n < 0 then "-" + Digits(0 - n) else Digits(n)
  }

  lemma {:induction false} LeadingDigits(n: nat, tail: string)
    ensures Leading(Digits(n) + tail, 0) == Leading(tail, n)
  {
    if n < 10 {
      assert (Digits(n) + tail)[1..] == tail;
    } else {
      var last := [DigitChar(n % 10)];
      assert Digits(n) + tail == Digits(n / 10) + (last + tail);
      LeadingDigits(n / 10, last + tail);
      assert (last + tail)[1..] == tail;
    }
  }

  /** Reading back a printed number. */
  lemma AtoiDecimal(n: int)
    requires IsInt32(n)
    ensures Atoi(Decimal(n)) == n
  {
    var d := Decimal(n);
    assert !IsSpace(d[0]);
    if n < 0 {
      assert d[1..] == Digits(0 - n) + "";
      LeadingDigits(0 - n, "");
    } else {
      assert Digits(n) + "" == Digits(n);
      LeadingDigits(n, "");
    }
  }

  lemma {:induction false} DigitsAreShort(n: nat, k: nat, bound: nat)
    requires k > 0 && n < bound && bound <= Ten(k)
    ensures |Digits(n)| <= k
  {
    if n >= 10 {
      DigitsAreShort(n / 10, k - 1, Ten(k - 1));
    }
  }

  function Ten(k: nat): nat {
    if k == 0 then 1 else 10 * Ten(k - 1)
  }

  lemma DecimalFitsBuffer(n: int)
    requires IsInt32(n)
    ensures |Decimal(n)| <= 11
  {
    assert Ten(2) == 10 * Ten(1);
    assert Ten(3) == 10 * Ten(2);
    assert Ten(4) == 10 * Ten(3);
    assert Ten(5) == 10 * Ten(4);
    assert Ten(6) == 10 * Ten(5);
    assert Ten(7) == 10 * Ten(6);
    assert Ten(8) == 10 * Ten(7);
    assert Ten(9) == 10 * Ten(8);
    assert Ten(10) == 10 * Ten(9);
    DigitsAreShort(if n < 0 then 0 - n else n, 10, 10_000_000_000);
  }

  // ---- the options of `consult` ----

  /** The arguments are (from|to, value) pairs. */
  predicate ArePairs(args: seq<string>) {
    |args| % 2 == 0 && forall i :: 0 <= i < |args| && i % 2 == 0 ==> args[i] == "from" || args[i] == "to"
  }

  /** The value of the last pair with that key; -1, any airport, if there is none. */
  function OptionValue(args: seq<string>, key: string): int {
    var n := |args|;
    if n < 2 then -1
    else if args[n - 2] == key then Atoi(args[n - 1])
    else OptionValue(args[..n - 2], key)
  }

  /** The option loop. It accepts exactly the lists of pairs; the last pair of a key wins. */
  method ParseOptions(argv: seq<string>) returns (hadError: bool, origin: int, destination: int)
    requires argv != []
    ensures !hadError <==> ArePairs(argv[1..])
    ensures !hadError ==> origin == OptionValue(argv[1..], "from") && destination == OptionValue(argv[1..], "to")
  {
    origin, destination, hadError := -1, -1, false;
    ghost var args := argv[1..];
    var i := 1;
    while i < |argv|
      invariant 1 <= i <= |argv| && (i - 1) % 2 == 0 && !hadError
      invariant ArePairs(args[..i - 1])
      invariant origin == OptionValue(args[..i - 1], "from") && destination == OptionValue(args[..i - 1], "to")
    {
      ghost var before := args[..i - 1];
      assert argv[i] == args[i - 1];
      if argv[i] == "to" {
        if |argv| == i + 1 {
          hadError := true;
          break;
        }
        i := i + 1;
        destination := Atoi(argv[i]);
        i := i + 1;
      } else if argv[i] == "from" {
        if |argv| == i + 1 {
          hadError := true;
          break;
        }
        i := i + 1;
        origin := Atoi(argv[i]);
        i := i + 1;
      } else {
        hadError := true;
        break;
      }
      assert args[..i - 1] == before + [args[i - 3], args[i - 2]];
      assert args[i - 2] == argv[i - 1];
      OptionAppended(before, args[i - 3], args[i - 2]);
    }
    if !hadError {
      assert args[..|args|] == args;
    }
  }

  lemma OptionAppended(args: seq<string>, key: string, value: string)
    requires ArePairs(args) && (key == "from" || key == "to")
    ensures ArePairs(args + [key, value])
    ensures OptionValue(args + [key, value], key) == Atoi(value)
    ensures forall other :: other != key ==> OptionValue(args + [key, value], other) == OptionValue(args, other)
  {
    assert (args + [key, value])[..|args|] == args;
  }

  /** Options may be given in any order: swapping two neighbouring pairs with different keys
      changes nothing, wherever they stand. */
  lemma {:induction false} SwapPairs(a: seq<string>, k1: string, v1: string, k2: string, v2: string, b: seq<string>, key: string)
    requires |a| % 2 == 0 && |b| % 2 == 0 && k1 != k2
    ensures ArePairs(a + [k1, v1, k2, v2] + b) <==> ArePairs(a + [k2, v2, k1, v1] + b)
    ensures OptionValue(a + [k1, v1, k2, v2] + b, key) == OptionValue(a + [k2, v2, k1, v1] + b, key)
  {
    SwapKeepsPairs(a, k1, v1, k2, v2, b);
    SwapKeepsPairs(a, k2, v2, k1, v1, b);
    SwapKeepsValue(a, k1, v1, k2, v2, b, key);
  }

  lemma SwapKeepsPairs(a: seq<string>, k1: string, v1: string, k2: string, v2: string, b: seq<string>)
    requires |a| % 2 == 0 && |b| % 2 == 0
    ensures ArePairs(a + [k1, v1, k2, v2] + b) ==> ArePairs(a + [k2, v2, k1, v1] + b)
  {
    var x, y := a + [k1, v1, k2, v2] + b, a + [k2, v2, k1, v1] + b;
    var n := |a|;
    if ArePairs(x) {
      forall i | 0 <= i < |y| && i % 2 == 0 ensures y[i] == "from" || y[i] == "to" {
        var j := if i == n then n + 2 else if i == n + 2 then n else i;
        assert j % 2 == 0 && y[i] == x[j];
      }
    }
  }

  lemma {:induction false} SwapKeepsValue(a: seq<string>, k1: string, v1: string, k2: string, v2: string, b: seq<string>, key: string)
    requires |b| % 2 == 0 && k1 != k2
    ensures OptionValue(a + [k1, v1, k2, v2] + b, key) == OptionValue(a + [k2, v2, k1, v1] + b, key)
  {
    if b == [] {
      assert a + [k1, v1, k2, v2] + b == a + [k1, v1] + [k2, v2];
      assert a + [k2, v2, k1, v1] + b == a + [k2, v2] + [k1, v1];
      OptionOnTop(a + [k1, v1], k2, v2, key);
      OptionOnTop(a + [k2, v2], k1, v1, key);
      OptionOnTop(a, k1, v1, key);
      OptionOnTop(a, k2, v2, key);
    } else {
      var n := |b| - 2;
      var (c, k, v) := (b[..n], b[n], b[n + 1]);
      assert b == c + [k, v];
      SwapKeepsValue(a, k1, v1, k2, v2, c, key);
      assert a + [k1, v1, k2, v2] + b == a + [k1, v1, k2, v2] + c + [k, v];
      assert a + [k2, v2, k1, v1] + b == a + [k2, v2, k1, v1] + c + [k, v];
      OptionOnTop(a + [k1, v1, k2, v2] + c, k, v, key);
      OptionOnTop(a + [k2, v2, k1, v1] + c, k, v, key);
    }
  }

  lemma OptionOnTop(args: seq<string>, k: string, v: string, key: string)
    ensures OptionValue(args + [k, v], key) == if k == key then Atoi(v) else OptionValue(args, key)
  {
    assert (args + [k, v])[..|args|] == args;
  }

  // ---- the commands ----

  /** What a command line asks for. `date` stands for strptime and mktime; None is no datagram. */
  function Meaning(line: string, argv: seq<string>, isAdmin: bool, date: string -> Option<int>): Option<Request>
    requires argv != [] && (argv[0] == "ping" ==> |line| >= 5)
  {
    if argv[0] == "ping" then Some(Ping(line[5..]))
    else if argv[0] == "consult" then
      if ArePairs(argv[1..]) then Some(Consult(OptionValue(argv[1..], "from"), OptionValue(argv[1..], "to"))) else None
    else if argv[0] == "purchase" then
      if |argv| == 2 then Some(Purchase(Atoi(argv[1]))) else None
    else if argv[0] == "cancel" then
      if |argv| == 2 then Some(Cancel(Atoi(argv[1]))) else None
    else if argv[0] == "addflight" && isAdmin && |argv| == 4 && date(argv[3]).Some? then
      Some(AddFlight(date(argv[3]).value, Atoi(argv[1]), Atoi(argv[2])))
    else None
  }

  /** The code has no answer to these: no token, an unclosed quote, buffers exceeded, `ping` on
      a line too short to skip it. */
  predicate Parsable(line: string) {
    && '\0' !in line && Bounded(line) && Scan(Strip(line)).1 && Scan(Strip(line)).0 != []
    && (Scan(Strip(line)).0[0] == "ping" ==> |line| >= 5)
  }

  function MeaningOf(line: string, isAdmin: bool, date: string -> Option<int>): Option<Request>
    requires Parsable(line)
  {
    Meaning(line, Scan(Strip(line)).0, isAdmin, date)
  }

  class Client {
    var isAdmin: bool

    method CommandToDatagram(command: string, date: string -> Option<int>) returns (datagram: Option<Request>)
      requires Parsable(command)
      modifies this
      ensures datagram == MeaningOf(command, old(isAdmin), date)
      ensures isAdmin == (old(isAdmin) || Scan(Strip(command)).0[0] == "makeadmin")
    {
      var ok, argv, _ := ParseCommand(command);
      if argv[0] == "ping" {
        datagram := Some(Ping(command[5..]));
      } else if argv[0] == "consult" {
        var hadError, origin, destination := ParseOptions(argv);
        if hadError {
          return None;
        }
        datagram := Some(Consult(origin, destination));
      } else if argv[0] == "purchase" {
        if |argv| != 2 {
          return None;
        }
        datagram := Some(Purchase(Atoi(argv[1])));
      } else if argv[0] == "cancel" {
        if |argv| != 2 {
          return None;
        }
        datagram := Some(Cancel(Atoi(argv[1])));
      } else if argv[0] == "help" {
        return None;
      } else if isAdmin && argv[0] == "addflight" {
        if |argv| != 4 || date(argv[3]) == None {
          return None;
        }
        datagram := Some(AddFlight(date(argv[3]).value, Atoi(argv[1]), Atoi(argv[2])));
      } else {
        if argv[0] == "makeadmin" {
          isAdmin := true;
        }
        return None;
      }
    }
  }

  /** Lockstep: every datagram that a command produces is answered exactly once, whatever the
      tables; the ones the client sends without waiting, OP_CONNECT and OP_EXIT, never are. */
  lemma EveryCommandIsAnswered(line: string, isAdmin: bool, date: string -> Option<int>, t: Tables)
    requires Parsable(line)
    ensures MeaningOf(line, isAdmin, date).Some? ==> Apply(t, MeaningOf(line, isAdmin, date).value).1.Some?
    ensures MeaningOf(line, isAdmin, date) != Some(Exit) && MeaningOf(line, isAdmin, date) != Some(Connect)
    ensures forall r :: Apply(t, r).1 == None <==> r == Exit || r == Connect
  {}

  // ---- consult, from the text ----

  /** Words with one space between them. */
  function Spaced(words: seq<string>): string {
    if |words| <= 1 then (if words == [] then "" else words[0])
    else words[0] + (" " + Spaced(words[1..]))
  }

  /** Can be typed without quotes. */
  predicate IsWord(w: string) {
    w != "" && w[0] != '"' && ' ' !in w && '\0' !in w
  }

  lemma {:induction false} WordsAreTokens(words: seq<string>)
    requires words != [] && forall i :: 0 <= i < |words| ==> IsWord(words[i])
    ensures Spaced(words) != "" && Spaced(words)[0] != ' ' && '\0' !in Spaced(words)
    ensures Scan(Spaced(words)) == (words, true)
  {
    var w, ws := words[0], words[1..];
    if ws == [] {
      TypedThen(Piece(w, false, 0), "");
      ScanPiece(Piece(w, false, 0), "");
      assert w + (Spaces(0) + "") == w;
      assert [w] + Scan("").0 == words;
    } else {
      WordsAreTokens(ws);
      TypedThen(Piece(w, false, 1), Spaced(ws));
      ScanPiece(Piece(w, false, 1), Spaced(ws));
      assert Spaces(1) == " ";
      assert [w] + ws == words;
    }
  }

  function ConsultWords(k1: string, n1: int, k2: string, n2: int): seq<string> {
    ["consult", k1, Decimal(n1), k2, Decimal(n2)]
  }

  function ConsultText(k1: string, n1: int, k2: string, n2: int): string {
    Spaced(ConsultWords(k1, n1, k2, n2))
  }

  predicate OptionKeys(k1: string, k2: string) {
    (k1 == "from" && k2 == "to") || (k1 == "to" && k2 == "from")
  }

  lemma ParsableBy(line: string, tokens: seq<string>)
    requires Scan(Strip(line)) == (tokens, true) && '\0' !in line
    requires 0 < |tokens| <= MAX_ARGS && tokens[0] != "ping"
    requires forall k :: 0 <= k < |tokens| ==> |tokens[k]| < CMD_BUFFER_SIZE
    ensures Parsable(line)
  {}

  lemma ConsultTokens(k1: string, n1: int, k2: string, n2: int)
    requires OptionKeys(k1, k2) && IsInt32(n1) && IsInt32(n2)
    ensures Parsable(ConsultText(k1, n1, k2, n2))
    ensures Scan(Strip(ConsultText(k1, n1, k2, n2))) == (ConsultWords(k1, n1, k2, n2), true)
  {
    var words := ConsultWords(k1, n1, k2, n2);
    assert IsWord(Decimal(n1)) && IsWord(Decimal(n2));
    WordsAreTokens(words);
    DecimalFitsBuffer(n1);
    DecimalFitsBuffer(n2);
    ParsableBy(Spaced(words), words);
  }

  /** From the text: for all ints a and b, `consult from a to b` and `consult to b from a` both
      ask for the flights from a to b. */
  lemma ConsultMeansWhatItSays(a: int, b: int, isAdmin: bool, date: string -> Option<int>)
    requires IsInt32(a) && IsInt32(b)
    ensures Parsable(ConsultText("from", a, "to", b)) && Parsable(ConsultText("to", b, "from", a))
    ensures MeaningOf(ConsultText("from", a, "to", b), isAdmin, date) == Some(Consult(a, b))
    ensures MeaningOf(ConsultText("to", b, "from", a), isAdmin, date) == Some(Consult(a, b))
  {
    ConsultTokens("from", a, "to", b);
    ConsultTokens("to", b, "from", a);
    AtoiDecimal(a);
    AtoiDecimal(b);
    PairValues("from", Decimal(a), "to", Decimal(b));
    PairValues("to", Decimal(b), "from", Decimal(a));
    assert ["consult", "from", Decimal(a), "to", Decimal(b)][1..] == ["from", Decimal(a), "to", Decimal(b)];
    assert ["consult", "to", Decimal(b), "from", Decimal(a)][1..] == ["to", Decimal(b), "from", Decimal(a)];
  }

  lemma PairValues(k1: string, v1: string, k2: string, v2: string)
    requires OptionKeys(k1, k2)
    ensures ArePairs([k1, v1, k2, v2])
    ensures OptionValue([k1, v1, k2, v2], k1) == Atoi(v1) && OptionValue([k1, v1, k2, v2], k2) == Atoi(v2)
  {
    OptionAppended([], k1, v1);
    assert [] + [k1, v1] == [k1, v1];
    OptionAppended([k1, v1], k2, v2);
    assert [k1, v1] + [k2, v2] == [k1, v1, k2, v2];
  }
}
