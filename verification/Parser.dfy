/** parse_command of client/libclient.c: the loops, and where they write. */
module Parser {
  import opened Tokenizer

  const MAX_ARGS := 10
  const CMD_BUFFER_SIZE := 20

  /** The character at `p`; the terminator ends the string. */
  function At(s: string, p: nat): char {
    if p < |s| then s[p] else '\0'
  }

  // ---- where the code writes ----

  /** Position `at` of the buffer of argument `arg`. */
  datatype Write = Write(arg: nat, at: nat)

  predicate InRange(w: Write) {
    w.arg < MAX_ARGS && w.at < CMD_BUFFER_SIZE
  }

  /** The inner loop on argument `k`, from position `at` on: one write for each character up to
      the delimiter `c` or the end, and one for the terminator. */
  function TokenWrites(s: string, c: char, k: nat, at: nat): seq<Write> {
    if s == "" || s[0] == c then [Write(k, at)] else [Write(k, at)] + TokenWrites(s[1..], c, k, at + 1)
  }

  /** The outer loop, from argument `k` on. */
  function LineWrites(s: string, k: nat): seq<Write>
    requires s == "" || s[0] != ' '
    decreases |s|
  {
    if s == "" then []
    else if s[0] == '"' then
      var n := Until(s[1..], '"');
      TokenWrites(s[1..], '"', k, 0) + if n == |s| - 1 then [] else LineWrites(Strip(s[n + 2..]), k + 1)
    else
      TokenWrites(s, ' ', k, 0) + LineWrites(Strip(s[Until(s, ' ')..]), k + 1)
  }

  /** The line stays within the code's buffers: at most MAX_ARGS tokens of at most
      CMD_BUFFER_SIZE - 1 characters. The code does not check this. */
  predicate Bounded(line: string) {
    && |Scan(Strip(line)).0| <= MAX_ARGS
    && forall k :: 0 <= k < |Scan(Strip(line)).0| ==> |Scan(Strip(line)).0[k]| < CMD_BUFFER_SIZE
  }

  lemma {:induction false} TokenWritesAre(s: string, c: char, k: nat, at: nat, w: Write)
    ensures w in TokenWrites(s, c, k, at) <==> w.arg == k && at <= w.at <= at + Until(s, c)
  {
    if s != "" && s[0] != c {
      TokenWritesAre(s[1..], c, k, at + 1, w);
    }
  }

  ghost predicate WritesToken(tokens: seq<string>, k: nat, w: Write) {
    k <= w.arg < k + |tokens| && w.at <= |tokens[w.arg - k]|
  }

  lemma WritesTokenCons(text: string, rest: seq<string>, k: nat, w: Write)
    ensures WritesToken([text] + rest, k, w) <==> (w.arg == k && w.at <= |text|) || WritesToken(rest, k + 1, w)
  {
    if k < w.arg <= k + |rest| { assert ([text] + rest)[w.arg - k] == rest[w.arg - k - 1]; }
  }

  lemma QuotedWritesAre(s: string, k: nat, w: Write)
    requires s != "" && s[0] == '"'
    ensures w in LineWrites(s, k) <==> WritesToken(Scan(s).0, k, w)
    decreases |s|, 0
  {
    var n := Until(s[1..], '"');
    TokenWritesAre(s[1..], '"', k, 0, w);
    if n == |s| - 1 {
      assert Scan(s).0 == [s[1..]] + [];
      WritesTokenCons(s[1..], [], k, w);
    } else {
      var rest := Strip(s[n + 2..]);
      LineWritesAre(rest, k + 1, w);
      WritesTokenCons(s[1..n + 1], Scan(rest).0, k, w);
    }
  }

  lemma BareWritesAre(s: string, k: nat, w: Write)
    requires s != "" && s[0] != '"' && s[0] != ' '
    ensures w in LineWrites(s, k) <==> WritesToken(Scan(s).0, k, w)
    decreases |s|, 0
  {
    var n := Until(s, ' ');
    TokenWritesAre(s, ' ', k, 0, w);
    var rest := Strip(s[n..]);
    LineWritesAre(rest, k + 1, w);
    WritesTokenCons(s[..n], Scan(rest).0, k, w);
  }

  /** Every position of every token, terminators included, and no other. */
  lemma {:induction false} LineWritesAre(s: string, k: nat, w: Write)
    requires s == "" || s[0] != ' '
    ensures w in LineWrites(s, k) <==> WritesToken(Scan(s).0, k, w)
    decreases |s|, 1
  {
    if s != "" {
      if s[0] == '"' { QuotedWritesAre(s, k, w); } else { BareWritesAre(s, k, w); }
    }
  }

  /** Main result, bounds: the code writes inside its buffers exactly when the line is Bounded. */
  lemma WritesStayInBuffers(line: string)
    ensures (forall w :: w in LineWrites(Strip(line), 0) ==> InRange(w)) <==> Bounded(line)
  {
    var s := Strip(line);
    var tokens := Scan(s).0;
    if Bounded(line) {
      forall w | w in LineWrites(s, 0) ensures InRange(w) {
        LineWritesAre(s, 0, w);
      }
    } else if |tokens| > MAX_ARGS {
      LineWritesAre(s, 0, Write(MAX_ARGS, 0));
      assert !InRange(Write(MAX_ARGS, 0));
    } else {
      var k: nat :| k < |tokens| && |tokens[k]| >= CMD_BUFFER_SIZE;
      LineWritesAre(s, 0, Write(k, |tokens[k]|));
      assert !InRange(Write(k, |tokens[k]|));
    }
  }

  /** A command and a word that is too long: the terminator, at the latest, goes past the end. */
  lemma LongWordOverflows(command: string, word: string)
    requires Typable(Piece(command, false, 1), false) && Typable(Piece(word, false, 0), true)
    requires |word| >= CMD_BUFFER_SIZE
    ensures Write(1, |word|) in LineWrites(Strip(command + " " + word), 0) && !InRange(Write(1, |word|))
  {
    var line := command + " " + word;
    assert Scan(Strip(line)) == ([command, word], true) by {
      ShowTwo(command, word);
      ParseShow(0, [Piece(command, false, 1), Piece(word, false, 0)]);
    }
    LineWritesAre(Strip(line), 0, Write(1, |word|));
  }

  lemma ShowTwo(command: string, word: string)
    ensures var ps := [Piece(command, false, 1), Piece(word, false, 0)];
            Spaces(0) + Show(ps) == command + " " + word && Texts(ps) == [command, word]
  {
    var ps := [Piece(command, false, 1), Piece(word, false, 0)];
    assert Spaces(1) == " " && Spaces(0) == "";
    var last := [ps[1]];
    assert ps[1..] == last && last[1..] == [];
    assert Show(last[1..]) == "" && Texts(last[1..]) == [];
    assert Show(last) == word && Texts(last) == [word];
    assert Typed(ps[0]) == command + " ";
  }

  /** For instance `ping` and a word of 20 letters. */
  lemma PingOverflows()
    ensures !Bounded("ping" + " " + seq(20, i => 'a'))
  {
    var word: string := seq(20, i => 'a');
    LongWordOverflows("ping", word);
    WritesStayInBuffers("ping" + " " + word);
  }

  // ---- the code ----

  method LeftStrip(command: string, start: nat) returns (p: nat)
    requires start <= |command| && '\0' !in command
    ensures start <= p <= |command| && command[p..] == Strip(command[start..])
  {
    p := start;
    while At(command, p) == ' '
      invariant start <= p <= |command| && Strip(command[p..]) == Strip(command[start..])
      decreases |command| - p
    {
      assert command[p..][1..] == command[p + 1..];
      p := p + 1;
    }
  }

  lemma NextWrite(all: seq<Write>, written: seq<Write>, command: string, p: nat, c: char, k: nat, at: nat)
    requires p <= |command| && all == written + TokenWrites(command[p..], c, k, at)
    ensures if p == |command| || command[p] == c then all == written + [Write(k, at)] && Until(command[p..], c) == 0
            else && all == written + [Write(k, at)] + TokenWrites(command[p + 1..], c, k, at + 1)
                 && Until(command[p..], c) == 1 + Until(command[p + 1..], c)
  {
    if p < |command| { assert command[p..][1..] == command[p + 1..]; }
  }

  /** The inner loop on argument `k`: characters are copied up to the delimiter or the end.
      `written` lists the writes. */
  method CopyChars(command: string, start: nat, quoted: bool, arg: array<char>, ghost k: nat)
      returns (p: nat, ghost written: seq<Write>)
    requires start <= |command| && '\0' !in command && arg.Length == CMD_BUFFER_SIZE
    requires Until(command[start..], if quoted then '"' else ' ') < CMD_BUFFER_SIZE
    modifies arg
    ensures p == start + Until(command[start..], if quoted then '"' else ' ')
    ensures p <= |command| && forall j :: 0 <= j < p - start ==> arg[j] == command[start + j]
    ensures written + [Write(k, p - start)] == TokenWrites(command[start..], if quoted then '"' else ' ', k, 0)
  {
    var c := if quoted then '"' else ' ';
    var pos := 0;
    p, written := start, [];
    ghost var all := TokenWrites(command[start..], c, k, 0);
    while ((!quoted && At(command, p) != ' ') || (quoted && At(command, p) != '"')) && At(command, p) != '\0'
      invariant start <= p <= |command| && pos == p - start
      invariant Until(command[start..], c) == pos + Until(command[p..], c)
      invariant forall j :: 0 <= j < pos ==> arg[j] == command[start + j]
      invariant all == written + TokenWrites(command[p..], c, k, pos)
      decreases |command| - p
    {
      NextWrite(all, written, command, p, c, k, pos);
      arg[pos] := At(command, p);
      written := written + [Write(k, pos)];
      pos := pos + 1;
      p := p + 1;
    }
    NextWrite(all, written, command, p, c, k, pos);
  }

  /** ... and terminated. */
  method CopyToken(command: string, start: nat, quoted: bool, arg: array<char>, ghost k: nat)
      returns (p: nat, ghost written: seq<Write>)
    requires start <= |command| && '\0' !in command && arg.Length == CMD_BUFFER_SIZE
    requires Until(command[start..], if quoted then '"' else ' ') < CMD_BUFFER_SIZE
    modifies arg
    ensures p == start + Until(command[start..], if quoted then '"' else ' ')
    ensures arg[..p - start] == command[start..p] && arg[p - start] == '\0'
    ensures written == TokenWrites(command[start..], if quoted then '"' else ' ', k, 0)
  {
    p, written := CopyChars(command, start, quoted, arg, k);
    arg[p - start] := '\0';
    written := written + [Write(k, p - start)];
  }

  // Where the token that starts at `here` has its text, and where the line goes on.

  function Begin(command: string, here: nat): (b: nat)
    requires here < |command|
    ensures b <= |command|
  {
    if command[here] == '"' then here + 1 else here
  }

  function End(command: string, here: nat): (e: nat)
    requires here < |command|
    ensures Begin(command, here) <= e <= |command|
  {
    Begin(command, here) + Until(command[Begin(command, here)..], if command[here] == '"' then '"' else ' ')
  }

  predicate Unclosed(command: string, here: nat)
    requires here < |command|
  {
    command[here] == '"' && End(command, here) == |command|
  }

  function Resume(command: string, here: nat): (r: nat)
    requires here < |command| && !Unclosed(command, here)
    ensures r <= |command|
  {
    if command[here] == '"' then End(command, here) + 1 else End(command, here)
  }

  lemma QuotedRound(command: string, here: nat)
    requires here < |command| && command[here] == '"'
    ensures var rest := command[here..];
            var n := Until(rest[1..], '"');
            && rest[1..] == command[Begin(command, here)..]
            && (Unclosed(command, here) <==> n == |rest| - 1)
            && (!Unclosed(command, here) ==> rest[n + 2..] == command[Resume(command, here)..])
  {
    assert command[here..][1..] == command[here + 1..];
  }

  lemma ScanQuotedLine(s: string)
    requires s != "" && s[0] == '"'
    ensures var n := Until(s[1..], '"');
            if n == |s| - 1 then Scan(s) == ([s[1..]], false)
            else var next := Scan(Strip(s[n + 2..])); Scan(s) == ([s[1..n + 1]] + next.0, next.1)
  {}

  lemma ScanRoundQuoted(command: string, here: nat)
    requires here < |command| && command[here] == '"'
    ensures var tokens := Scan(command[here..]).0;
            tokens != [] && tokens[0] == command[Begin(command, here)..End(command, here)]
    ensures if Unclosed(command, here) then !Scan(command[here..]).1
            else var next := Scan(Strip(command[Resume(command, here)..]));
                 Scan(command[here..]).0[1..] == next.0 && Scan(command[here..]).1 == next.1
  {
    var rest := command[here..];
    var n := Until(rest[1..], '"');
    ScanQuotedLine(rest);
    QuotedRound(command, here);
    if Unclosed(command, here) {
      assert rest[1..] == command[Begin(command, here)..End(command, here)];
    } else {
      assert rest[1..n + 1] == command[Begin(command, here)..End(command, here)];
    }
  }

  lemma ScanRoundBare(command: string, here: nat)
    requires here < |command| && command[here] != '"' && command[here] != ' '
    ensures var tokens := Scan(command[here..]).0;
            tokens != [] && tokens[0] == command[Begin(command, here)..End(command, here)]
    ensures var next := Scan(Strip(command[Resume(command, here)..]));
            Scan(command[here..]).0[1..] == next.0 && Scan(command[here..]).1 == next.1
  {
    var rest := command[here..];
    var n := Until(rest, ' ');
    assert Begin(command, here) == here && End(command, here) == here + n && Resume(command, here) == here + n;
    assert rest[n..] == command[here + n..];
    assert rest[..n] == command[here..here + n];
  }

  function Delimiter(command: string, here: nat): char
    requires here < |command|
  {
    if command[here] == '"' then '"' else ' '
  }

  lemma LineWritesQuoted(s: string, inside: string, after: string, closed: bool, k: nat)
    requires s != "" && s[0] == '"' && s[1..] == inside
    requires closed <==> Until(inside, '"') != |s| - 1
    requires closed ==> s[Until(inside, '"') + 2..] == after
    ensures LineWrites(s, k) == TokenWrites(inside, '"', k, 0) + if closed then LineWrites(Strip(after), k + 1) else []
  {}

  lemma WritesRoundQuoted(command: string, here: nat, k: nat)
    requires here < |command| && command[here] == '"'
    ensures LineWrites(command[here..], k) ==
              TokenWrites(command[Begin(command, here)..], '"', k, 0)
              + if Unclosed(command, here) then [] else LineWrites(Strip(command[Resume(command, here)..]), k + 1)
  {
    QuotedRound(command, here);
    var after := if Unclosed(command, here) then "" else command[Resume(command, here)..];
    LineWritesQuoted(command[here..], command[Begin(command, here)..], after, !Unclosed(command, here), k);
  }

  lemma WritesRoundBare(command: string, here: nat, k: nat)
    requires here < |command| && command[here] != '"' && command[here] != ' '
    ensures LineWrites(command[here..], k) ==
              TokenWrites(command[here..], ' ', k, 0) + LineWrites(Strip(command[Resume(command, here)..]), k + 1)
  {
    var rest := command[here..];
    assert rest[Until(rest, ' ')..] == command[here + Until(rest, ' ')..];
  }

  /** The writes of one round of the outer loop, and then the others. */
  lemma WritesRound(command: string, here: nat, k: nat)
    requires here < |command| && command[here] != ' '
    ensures LineWrites(command[here..], k) ==
              TokenWrites(command[Begin(command, here)..], Delimiter(command, here), k, 0)
              + if Unclosed(command, here) then [] else LineWrites(Strip(command[Resume(command, here)..]), k + 1)
  {
    if command[here] == '"' { WritesRoundQuoted(command, here, k); } else { WritesRoundBare(command, here, k); }
  }

  /** At `here` the code has found the tokens `argv` and made the writes `written`; the rest of
      the line has the others. */
  ghost predicate SoFar(line: string, argv: seq<string>, written: seq<Write>, command: string, here: nat)
    requires line == "" || line[0] != ' '
  {
    && here <= |command| && (here < |command| ==> command[here] != ' ')
    && Scan(line) == (argv + Scan(command[here..]).0, Scan(command[here..]).1)
    && LineWrites(line, 0) == written + LineWrites(command[here..], |argv|)
  }

  lemma NothingYet(command: string, p: nat)
    requires p <= |command| && command[p..] == Strip(command)
    ensures SoFar(Strip(command), [], [], command, p)
  {
    assert p < |command| ==> command[p] == command[p..][0];
    assert [] + Scan(Strip(command)).0 == Scan(Strip(command)).0;
  }

  lemma NextToken(line: string, argv: seq<string>, written: seq<Write>, command: string, here: nat)
    requires line == "" || line[0] != ' '
    requires SoFar(line, argv, written, command, here) && here < |command|
    ensures |argv| < |Scan(line).0| && Scan(line).0[|argv|] == command[Begin(command, here)..End(command, here)]
    ensures Unclosed(command, here) ==> !Scan(line).1
  {
    if command[here] == '"' { ScanRoundQuoted(command, here); } else { ScanRoundBare(command, here); }
  }

  lemma ScanMore(argv: seq<string>, command: string, here: nat)
    requires here < |command| && command[here] != ' ' && !Unclosed(command, here)
    ensures var next := Scan(Strip(command[Resume(command, here)..]));
            && argv + Scan(command[here..]).0 == argv + [command[Begin(command, here)..End(command, here)]] + next.0
            && Scan(command[here..]).1 == next.1
  {
    if command[here] == '"' { ScanRoundQuoted(command, here); } else { ScanRoundBare(command, here); }
    var tokens := Scan(command[here..]).0;
    assert tokens == [tokens[0]] + tokens[1..];
  }

  lemma WritesMore(written: seq<Write>, command: string, here: nat, k: nat, more: seq<Write>)
    requires here < |command| && command[here] != ' '
    requires more == TokenWrites(command[Begin(command, here)..], Delimiter(command, here), k, 0)
    ensures written + LineWrites(command[here..], k) ==
              written + more + if Unclosed(command, here) then [] else LineWrites(Strip(command[Resume(command, here)..]), k + 1)
  {
    WritesRound(command, here, k);
  }

  lemma OneMore(line: string, argv: seq<string>, written: seq<Write>, command: string, here: nat, more: seq<Write>, p: nat)
    requires line == "" || line[0] != ' '
    requires SoFar(line, argv, written, command, here) && here < |command| && !Unclosed(command, here)
    requires more == TokenWrites(command[Begin(command, here)..], Delimiter(command, here), |argv|, 0)
    requires p <= |command| && command[p..] == Strip(command[Resume(command, here)..])
    ensures SoFar(line, argv + [command[Begin(command, here)..End(command, here)]], written + more, command, p)
  {
    ScanMore(argv, command, here);
    WritesMore(written, command, here, |argv|, more);
    assert p < |command| ==> command[p] == command[p..][0];
  }

  /** The C string that a buffer holds. */
  function CString(buffer: seq<char>): string {
    buffer[..Until(buffer, '\0')]
  }

  lemma BufferHolds(buffer: seq<char>, token: string)
    requires |token| < |buffer| && '\0' !in token && buffer[..|token|] == token && buffer[|token|] == '\0'
    ensures CString(buffer) == token
  {
    UntilAfter(token, buffer[|token|..], '\0');
    assert buffer == token + buffer[|token|..];
  }

  /** The closing quote, if the token has one to close, and the spaces after it. */
  method SkipAfter(command: string, here: nat, end: nat, quoted: bool) returns (p: nat, comillas: bool)
    requires here < |command| && '\0' !in command
    requires end == End(command, here) && quoted == (command[here] == '"')
    ensures comillas == Unclosed(command, here)
    ensures !comillas ==> Resume(command, here) <= p <= |command| && command[p..] == Strip(command[Resume(command, here)..])
  {
    p, comillas := end, quoted;
    if comillas && At(command, p) == '"' {
      p := p + 1;
      comillas := false;
    }
    if !comillas && At(command, p) == ' ' {
      p := LeftStrip(command, p);
    }
  }

  /** One round of the outer loop: a token, its closing quote and the spaces after it. */
  method ReadToken(command: string, here: nat, ghost k: nat)
      returns (p: nat, comillas: bool, token: string, ghost written: seq<Write>)
    requires here < |command| && '\0' !in command
    requires End(command, here) - Begin(command, here) < CMD_BUFFER_SIZE
    ensures token == command[Begin(command, here)..End(command, here)]
    ensures comillas == Unclosed(command, here)
    ensures !comillas ==> Resume(command, here) <= p <= |command| && command[p..] == Strip(command[Resume(command, here)..])
    ensures written == TokenWrites(command[Begin(command, here)..], Delimiter(command, here), k, 0)
  {
    p := here;
    var arg := new char[CMD_BUFFER_SIZE];
    comillas := At(command, p) == '"';
    if comillas {
      p := p + 1;
    }
    p, written := CopyToken(command, p, comillas, arg, k);
    assert CString(arg[..]) == command[Begin(command, here)..p] by { BufferHolds(arg[..], command[Begin(command, here)..p]); }
    token := CString(arg[..]);
    p, comillas := SkipAfter(command, here, p, comillas);
  }

  /** The outer loop, on a line from which leading spaces have been stripped; argv has room for
      MAX_ARGS tokens. */
  method ParseFrom(command: string, start: nat, ghost line: string)
      returns (ok: bool, argv: seq<string>, ghost written: seq<Write>)
    requires '\0' !in command && (line == "" || line[0] != ' ') && SoFar(line, [], [], command, start)
    requires |Scan(line).0| <= MAX_ARGS && forall k :: 0 <= k < |Scan(line).0| ==> |Scan(line).0[k]| < CMD_BUFFER_SIZE
    ensures ok == Scan(line).1 && argv == if ok then Scan(line).0 else []
    ensures written == LineWrites(line, 0)
  {
    argv, written := [], [];
    var p := start;
    while At(command, p) != '\0'
      invariant SoFar(line, argv, written, command, p)
      decreases |command| - p
    {
      NextToken(line, argv, written, command, p);
      var q, comillas, token;
      ghost var more;
      q, comillas, token, more := ReadToken(command, p, |argv|);
      if comillas {
        WritesMore(written, command, p, |argv|, more);
        return false, [], written + more;
      }
      OneMore(line, argv, written, command, p, more, q);
      assert |argv| < MAX_ARGS;  // the next pointer fits argv
      p, argv, written := q, argv + [token], written + more;
    }
    assert argv + [] == argv && written + [] == written;
    ok := true;
  }

  /** `written` lists where the code writes: see WritesStayInBuffers. */
  method ParseCommand(command: string) returns (ok: bool, argv: seq<string>, ghost written: seq<Write>)
    requires '\0' !in command && Bounded(command)
    ensures ok == Scan(Strip(command)).1
    ensures argv == if ok then Scan(Strip(command)).0 else []
    ensures written == LineWrites(Strip(command), 0) && forall w :: w in written ==> InRange(w)
  {
    assert command[0..] == command;
    var p := LeftStrip(command, 0);
    NothingYet(command, p);
    ok, argv, written := ParseFrom(command, p, Strip(command));
    WritesStayInBuffers(command);
  }
}
