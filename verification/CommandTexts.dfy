/** What each command means, told from its text. */
module CommandTexts {
  import opened Types
  import opened Tokenizer
  import opened Parser
  import opened Commands

  // ---- words and buffers ----

  /** Words, typed one space apart, stay within the buffers iff there are at most ten of them and
      each has at most 19 characters. */
  lemma WordsFit(words: seq<string>)
    requires words != [] && forall i :: 0 <= i < |words| ==> IsWord(words[i])
    ensures Bounded(Spaced(words)) <==> |words| <= 10 && forall i :: 0 <= i < |words| ==> |words[i]| <= 19
  {
    WordsAreTokens(words);
  }

  lemma DecimalIsWord(n: int)
    requires IsInt32(n)
    ensures IsWord(Decimal(n)) && |Decimal(n)| <= 19 && Atoi(Decimal(n)) == n
  {
    DecimalFitsBuffer(n);
    AtoiDecimal(n);
  }

  // ---- atoi ----

  lemma {:induction false} SkipsSpaces(spaces: string, s: string)
    requires (forall i :: 0 <= i < |spaces| ==> IsSpace(spaces[i])) && (s == "" || !IsSpace(s[0]))
    ensures SkipSpaces(spaces + s) == s
  {
    if spaces == "" {
      assert spaces + s == s;
    } else {
      assert (spaces + s)[1..] == spaces[1..] + s;
      SkipsSpaces(spaces[1..], s);
    }
  }

  /** As isspace has it. */
  predicate AreSpaces(s: string) {
    forall i :: 0 <= i < |s| ==> s[i] == ' ' || s[i] == '\t' || s[i] == '\n' || 11 <= s[i] as int <= 13
  }

  /** White space, a sign or none, a number, and anything that does not go on with it. */
  lemma AtoiReads(spaces: string, sign: string, n: nat, tail: string)
    requires AreSpaces(spaces)
    requires sign == "" || sign == "-" || sign == "+"
    requires tail == "" || tail[0] < '0' || '9' < tail[0]
    ensures Atoi(spaces + (sign + (Digits(n) + tail))) == ToInt32(if sign == "-" then 0 - n else n)
  {
    var number := Digits(n) + tail;
    var signed := sign + number;
    assert !IsSpace(signed[0]);
    SkipsSpaces(spaces, signed);
    LeadingDigits(n, tail);
    if sign == "" {
      assert signed == number;
    } else {
      assert signed[1..] == number;
    }
  }

  /** No number at all is 0. */
  lemma AtoiOfNoNumber(s: string)
    requires s == "" || (!AreSpaces(s[..1]) && !('0' <= s[0] <= '9') && s[0] != '-' && s[0] != '+')
    ensures Atoi(s) == 0
  {}

  // ---- the commands, from the text ----

  lemma PurchaseMeansWhatItSays(n: int, isAdmin: bool, date: string -> Option<int>)
    requires IsInt32(n)
    ensures Parsable(Spaced(["purchase", Decimal(n)]))
    ensures MeaningOf(Spaced(["purchase", Decimal(n)]), isAdmin, date) == Some(Purchase(n))
  {
    DecimalIsWord(n);
    var words := ["purchase", Decimal(n)];
    WordsAreTokens(words);
    ParsableBy(Spaced(words), words);
  }

  lemma CancelMeansWhatItSays(n: int, isAdmin: bool, date: string -> Option<int>)
    requires IsInt32(n)
    ensures Parsable(Spaced(["cancel", Decimal(n)]))
    ensures MeaningOf(Spaced(["cancel", Decimal(n)]), isAdmin, date) == Some(Cancel(n))
  {
    DecimalIsWord(n);
    var words := ["cancel", Decimal(n)];
    WordsAreTokens(words);
    ParsableBy(Spaced(words), words);
  }

  /** One option or none: the airport not named is any. */
  lemma ShortConsultMeansWhatItSays(a: int, isAdmin: bool, date: string -> Option<int>)
    requires IsInt32(a)
    ensures Parsable("consult") && MeaningOf("consult", isAdmin, date) == Some(Consult(-1, -1))
    ensures Parsable(Spaced(["consult", "from", Decimal(a)]))
    ensures MeaningOf(Spaced(["consult", "from", Decimal(a)]), isAdmin, date) == Some(Consult(a, -1))
    ensures Parsable(Spaced(["consult", "to", Decimal(a)]))
    ensures MeaningOf(Spaced(["consult", "to", Decimal(a)]), isAdmin, date) == Some(Consult(-1, a))
  {
    DecimalIsWord(a);
    assert Spaced(["consult"]) == "consult";
    WordsAreTokens(["consult"]);
    ParsableBy("consult", ["consult"]);
    OneOption("from", a, isAdmin, date);
    OneOption("to", a, isAdmin, date);
  }

  lemma OneOption(key: string, a: int, isAdmin: bool, date: string -> Option<int>)
    requires IsInt32(a) && (key == "from" || key == "to")
    ensures Parsable(Spaced(["consult", key, Decimal(a)]))
    ensures MeaningOf(Spaced(["consult", key, Decimal(a)]), isAdmin, date) ==
              Some(if key == "from" then Consult(a, -1) else Consult(-1, a))
  {
    var words := ["consult", key, Decimal(a)];
    assert IsWord(Decimal(a)) && |Decimal(a)| <= 19 by { DecimalIsWord(a); }
    WordsAreTokens(words);
    ParsableBy(Spaced(words), words);
    assert words[1..] == [key, Decimal(a)];
    OneOptionValue(key, a);
  }

  lemma OneOptionValue(key: string, a: int)
    requires IsInt32(a) && (key == "from" || key == "to")
    ensures var args := [key, Decimal(a)];
            && ArePairs(args)
            && OptionValue(args, "from") == (if key == "from" then a else -1)
            && OptionValue(args, "to") == (if key == "from" then -1 else a)
  {
    DecimalIsWord(a);
    OptionAppended([], key, Decimal(a));
    assert [] + [key, Decimal(a)] == [key, Decimal(a)];
  }

  lemma PingIsFirst(text: string)
    ensures Scan(Strip("ping " + text)).0 != [] && Scan(Strip("ping " + text)).0[0] == "ping"
  {
    var line := "ping " + text;
    UntilAfter("ping", " " + text, ' ');
    assert "ping" + (" " + text) == line;
    assert line[..4] == "ping";
  }

  /** The text of a ping goes to the server as it is, quotes and spaces included. */
  lemma PingMeansWhatItSays(text: string, isAdmin: bool, date: string -> Option<int>)
    requires Parsable("ping " + text)
    ensures MeaningOf("ping " + text, isAdmin, date) == Some(Ping(text))
  {
    PingIsFirst(text);
    assert ("ping " + text)[5..] == text;
  }

  /** But the code skips five characters of the line as typed: with `n` spaces in front, the text
      sent starts as many characters too early, so it is right iff there are none. */
  lemma PingAfterSpaces(n: nat, text: string, isAdmin: bool, date: string -> Option<int>)
    requires Parsable(Spaces(n) + ("ping " + text))
    ensures MeaningOf(Spaces(n) + ("ping " + text), isAdmin, date) == Some(Ping(text)) <==> n == 0
  {
    var line := Spaces(n) + ("ping " + text);
    PingIsFirst(text);
    StripSpaces(n, "ping " + text);
    assert Strip("ping " + text) == "ping " + text;
    assert |line[5..]| == n + |text|;
    if n == 0 {
      assert line[5..] == text;
    }
  }

  function Quoted(text: string): string {
    "\"" + (text + "\"")
  }

  /** addflight <origin> <destination> "<when>" */
  function AddFlightText(origin: int, destination: int, when: string): string {
    "addflight" + (" " + (Decimal(origin) + (" " + (Decimal(destination) + (" " + Quoted(when))))))
  }

  /** One word in front of a line. */
  lemma WordInFront(w: string, s: string)
    requires IsWord(w) && s != "" && s[0] != ' '
    ensures var line := w + (" " + s);
            line != "" && line[0] != ' ' && Scan(line) == ([w] + Scan(s).0, Scan(s).1)
  {
    assert Spaces(1) == " ";
    TypedThen(Piece(w, false, 1), s);
    ScanPiece(Piece(w, false, 1), s);
  }

  lemma QuotedAlone(text: string)
    requires '"' !in text
    ensures Quoted(text) != "" && Quoted(text)[0] != ' ' && Scan(Quoted(text)) == ([text], true)
  {
    var p := Piece(text, true, 0);
    assert Spaces(0) + "" == "";
    assert "\"" + "" == "\"";
    TypedThen(p, "");
    ScanPiece(p, "");
    assert Typed(p) + "" == Quoted(text) && [text] + Scan("").0 == [text];
  }

  lemma LastTokens(d: string, when: string)
    requires IsWord(d) && '"' !in when
    ensures var rest := d + (" " + Quoted(when)); rest != "" && rest[0] != ' ' && Scan(rest) == ([d, when], true)
  {
    QuotedAlone(when);
    WordInFront(d, Quoted(when));
    assert [d] + [when] == [d, when];
  }

  lemma MiddleTokens(o: string, d: string, when: string)
    requires IsWord(o) && IsWord(d) && '"' !in when
    ensures var rest := o + (" " + (d + (" " + Quoted(when))));
            rest != "" && rest[0] != ' ' && Scan(rest) == ([o, d, when], true)
  {
    LastTokens(d, when);
    WordInFront(o, d + (" " + Quoted(when)));
    assert [o] + [d, when] == [o, d, when];
  }

  lemma AddFlightTokens(origin: int, destination: int, when: string)
    requires IsInt32(origin) && IsInt32(destination) && '"' !in when
    ensures var line := AddFlightText(origin, destination, when);
            && line != "" && line[0] != ' '
            && Scan(line) == (["addflight", Decimal(origin), Decimal(destination), when], true)
  {
    var o, d := Decimal(origin), Decimal(destination);
    DecimalIsWord(origin);
    DecimalIsWord(destination);
    MiddleTokens(o, d, when);
    WordInFront("addflight", o + (" " + (d + (" " + Quoted(when)))));
    assert ["addflight"] + [o, d, when] == ["addflight", o, d, when];
  }

  lemma AddFlightHasNoNul(origin: int, destination: int, when: string)
    requires IsInt32(origin) && IsInt32(destination) && '\0' !in when
    ensures '\0' !in AddFlightText(origin, destination, when)
  {
    DecimalIsWord(origin);
    DecimalIsWord(destination);
  }

  /** With a date of up to 19 characters, which dd-mm-YYYY HH:MM:SS takes. */
  lemma AddFlightMeansWhatItSays(origin: int, destination: int, when: string, isAdmin: bool, date: string -> Option<int>)
    requires IsInt32(origin) && IsInt32(destination) && '"' !in when && '\0' !in when && |when| <= 19
    ensures Parsable(AddFlightText(origin, destination, when))
    ensures MeaningOf(AddFlightText(origin, destination, when), isAdmin, date) ==
              if isAdmin && date(when).Some? then Some(AddFlight(date(when).value, origin, destination)) else None
  {
    var line := AddFlightText(origin, destination, when);
    AddFlightTokens(origin, destination, when);
    AddFlightHasNoNul(origin, destination, when);
    assert Strip(line) == line;
    DecimalIsWord(origin);
    DecimalIsWord(destination);
    ParsableBy(line, ["addflight", Decimal(origin), Decimal(destination), when]);
  }

  /** The options are not pairs of a known key and a value. */
  ghost predicate HasBadOptions(argv: seq<string>) {
    |argv| % 2 == 0 || exists i :: 0 < i < |argv| && i % 2 == 1 && argv[i] != "from" && argv[i] != "to"
  }

  lemma BadOptionsAreNoPairs(argv: seq<string>)
    requires argv != []
    ensures HasBadOptions(argv) <==> !ArePairs(argv[1..])
  {
    var args := argv[1..];
    assert forall i :: 0 <= i < |args| ==> args[i] == argv[i + 1];
    if |args| % 2 == 0 && !ArePairs(args) {
      var i :| 0 <= i < |args| && i % 2 == 0 && !(args[i] == "from" || args[i] == "to");
      assert argv[i + 1] == args[i];
    }
    if i :| 0 < i < |argv| && i % 2 == 1 && argv[i] != "from" && argv[i] != "to" {
      assert args[i - 1] == argv[i];
    }
  }

  /** Nothing else makes a datagram: another first word, a wrong number of arguments, options that
      are not pairs, an addflight without the rights or with a bad date. */
  lemma OtherLinesMeanNothing(line: string, isAdmin: bool, date: string -> Option<int>)
    requires Parsable(line)
    ensures var argv := Scan(Strip(line)).0;
            MeaningOf(line, isAdmin, date) == None <==>
              if argv[0] == "ping" then false
              else if argv[0] == "consult" then HasBadOptions(argv)
              else if argv[0] == "purchase" || argv[0] == "cancel" then |argv| != 2
              else if argv[0] == "addflight" then !isAdmin || |argv| != 4 || date(argv[3]) == None
              else true
  {
    BadOptionsAreNoPairs(Scan(Strip(line)).0);
  }
}
