/** How a command line splits into arguments: the specification of parse_command of
    client/libclient.c. The code is in Parser.dfy. */
module Tokenizer {

  // ---- what the tokens of a line are ----

  /** Without the leading spaces. */
  function Strip(s: string): (r: string)
    ensures |r| <= |s| && (r == "" || r[0] != ' ')
  {
    if s != "" && s[0] == ' ' then Strip(s[1..]) else s
  }

  /** Where `c` first occurs; the length if it does not. */
  function Until(s: string, c: char): (n: nat)
    ensures n <= |s| && c !in s[..n] && (n < |s| ==> s[n] == c)
  {
    if s == "" || s[0] == c then 0 else 1 + Until(s[1..], c)
  }

  /** The tokens of a line that does not start with a space, and whether every quote is closed;
      the last token is then complete. */
  function Scan(s: string): (seq<string>, bool)
    requires s == "" || s[0] != ' '
    decreases |s|
  {
    if s == "" then ([], true)
    else if s[0] == '"' then
      var n := Until(s[1..], '"');
      if n == |s| - 1 then ([s[1..]], false)
      else
        var (rest, closed) := Scan(Strip(s[n + 2..]));
        ([s[1..n + 1]] + rest, closed)
    else
      var n := Until(s, ' ');
      var (rest, closed) := Scan(Strip(s[n..]));
      ([s[..n]] + rest, closed)
  }

  // ---- printing ----

  /** An argument as it is typed, and the spaces typed after it. */
  datatype Piece = Piece(text: string, quoted: bool, spaces: nat)

  function Spaces(n: nat): (s: string)
    ensures |s| == n && forall i :: 0 <= i < n ==> s[i] == ' '
  {
    seq(n, i => ' ')
  }

  function Typed(p: Piece): string {
    (if p.quoted then "\"" + p.text + "\"" else p.text) + Spaces(p.spaces)
  }

  function Show(ps: seq<Piece>): string {
    if ps == [] then "" else Typed(ps[0]) + Show(ps[1..])
  }

  function Texts(ps: seq<Piece>): seq<string> {
    if ps == [] then [] else [ps[0].text] + Texts(ps[1..])
  }

  /** Quoted arguments hold no quote; bare ones are not empty, hold no space and do not start
      with a quote, and a space follows unless the line ends there (`atEnd`). */
  predicate Typable(p: Piece, atEnd: bool) {
    if p.quoted then '"' !in p.text
    else p.text != "" && ' ' !in p.text && p.text[0] != '"' && (p.spaces > 0 || atEnd)
  }

  predicate AllTypable(ps: seq<Piece>, atEnd: bool) {
    forall i :: 0 <= i < |ps| ==> Typable(ps[i], atEnd && i == |ps| - 1)
  }

  // ---- lemmas on stripping and searching ----

  lemma {:induction false} StripSpaces(n: nat, s: string)
    requires s == "" || s[0] != ' '
    ensures Strip(Spaces(n) + s) == s
  {
    if n == 0 {
      assert Spaces(n) + s == s;
    } else {
      assert (Spaces(n) + s)[1..] == Spaces(n - 1) + s;
      StripSpaces(n - 1, s);
    }
  }

  lemma {:induction false} StripIsSpaces(s: string)
    ensures s == Spaces(|s| - |Strip(s)|) + Strip(s)
  {
    if s != "" && s[0] == ' ' {
      StripIsSpaces(s[1..]);
      assert s == [' '] + s[1..];
      assert [' '] + Spaces(|s| - 1 - |Strip(s)|) == Spaces(|s| - |Strip(s)|);
    }
  }

  lemma {:induction false} UntilAfter(u: string, v: string, c: char)
    requires c !in u && (v == "" || v[0] == c)
    ensures Until(u + v, c) == |u|
  {
    if u == "" {
      assert u + v == v;
    } else {
      assert (u + v)[1..] == u[1..] + v;
      UntilAfter(u[1..], v, c);
    }
  }

  lemma ScanClosed(u: string, rest: string)
    requires '"' !in u
    ensures var line := "\"" + (u + ("\"" + rest));
            Scan(line) == ([u] + Scan(Strip(rest)).0, Scan(Strip(rest)).1)
  {
    var line := "\"" + (u + ("\"" + rest));
    assert line[1..] == u + ("\"" + rest);
    UntilAfter(u, "\"" + rest, '"');
    assert line[1..|u| + 1] == u;
    assert line[|u| + 2..] == rest;
  }

  lemma ScanOpen(u: string, rest: string)
    requires u != "" && u[0] != '"' && ' ' !in u && (rest == "" || rest[0] == ' ')
    ensures Scan(u + rest) == ([u] + Scan(Strip(rest)).0, Scan(Strip(rest)).1)
  {
    UntilAfter(u, rest, ' ');
    assert (u + rest)[..|u|] == u;
    assert (u + rest)[|u|..] == rest;
  }

  lemma TypedThen(p: Piece, s: string)
    ensures Typed(p) + s ==
              if p.quoted then "\"" + (p.text + ("\"" + (Spaces(p.spaces) + s))) else p.text + (Spaces(p.spaces) + s)
  {}

  /** One typed piece in front of a line comes out as one token in front of its tokens. */
  lemma ScanPiece(p: Piece, s: string)
    requires Typable(p, s == "") && (s == "" || s[0] != ' ')
    ensures Typed(p) + s != "" && (Typed(p) + s)[0] != ' '
    ensures Scan(Typed(p) + s) == ([p.text] + Scan(s).0, Scan(s).1)
  {
    var rest := Spaces(p.spaces) + s;
    StripSpaces(p.spaces, s);
    TypedThen(p, s);
    if p.quoted { ScanClosed(p.text, rest); } else { ScanOpen(p.text, rest); }
  }

  lemma TypableTail(ps: seq<Piece>, atEnd: bool)
    requires ps != [] && AllTypable(ps, atEnd)
    ensures AllTypable(ps[1..], atEnd) && Typable(ps[0], atEnd && ps[1..] == [])
  {
    assert Typable(ps[0], atEnd && 0 == |ps| - 1);
    forall i | 0 <= i < |ps[1..]| ensures Typable(ps[1..][i], atEnd && i == |ps[1..]| - 1) {
      assert Typable(ps[i + 1], atEnd && i + 1 == |ps| - 1);
    }
  }

  lemma ShownIsEmpty(ps: seq<Piece>, tail: string)
    requires AllTypable(ps, tail == "")
    ensures Show(ps) + tail == "" <==> ps == [] && tail == ""
  {
    if ps != [] {
      TypableTail(ps, tail == "");
      assert Typed(ps[0]) != "";
    }
  }

  lemma ShowCons(p: Piece, ps: seq<Piece>, tail: string)
    ensures Show([p] + ps) + tail == Typed(p) + (Show(ps) + tail)
    ensures Texts([p] + ps) == [p.text] + Texts(ps)
  {
    assert ([p] + ps)[1..] == ps;
  }

  lemma ScanOneMore(p: Piece, ps: seq<Piece>, tail: string)
    requires var s := Show(ps) + tail; (s == "" || s[0] != ' ') && Typable(p, s == "")
    ensures var s := Show([p] + ps) + tail;
            && s != "" && s[0] != ' '
            && Scan(s) == ([p.text] + Scan(Show(ps) + tail).0, Scan(Show(ps) + tail).1)
  {
    ShowCons(p, ps, tail);
    ScanPiece(p, Show(ps) + tail);
  }

  /** Tokens in front of any line. */
  lemma {:induction false} ScanShow(ps: seq<Piece>, tail: string)
    requires AllTypable(ps, tail == "") && (tail == "" || tail[0] != ' ')
    ensures var s := Show(ps) + tail; s == "" || s[0] != ' '
    ensures Scan(Show(ps) + tail) == (Texts(ps) + Scan(tail).0, Scan(tail).1)
  {
    if ps == [] {
      assert Show(ps) + tail == tail && Texts(ps) + Scan(tail).0 == Scan(tail).0;
    } else {
      var p, next := ps[0], ps[1..];
      assert ps == [p] + next;
      assert AllTypable(next, tail == "") && Typable(p, Show(next) + tail == "") by {
        TypableTail(ps, tail == "");
        ShownIsEmpty(next, tail);
      }
      ScanShow(next, tail);
      ScanOneMore(p, next, tail);
      assert Texts(ps) + Scan(tail).0 == [p.text] + (Texts(next) + Scan(tail).0);
    }
  }

  /** Main result, round trip: whatever the quoting and spacing, parsing what was printed gives
      the arguments back. */
  lemma ParseShow(lead: nat, ps: seq<Piece>)
    requires AllTypable(ps, true)
    ensures Scan(Strip(Spaces(lead) + Show(ps))) == (Texts(ps), true)
  {
    ScanShow(ps, "");
    assert Show(ps) + "" == Show(ps);
    assert Texts(ps) + [] == Texts(ps);
    StripSpaces(lead, Show(ps));
  }

  // ---- the other direction: every line is something printed ----

  /** The line starts with a quote that is never closed. */
  predicate OpenQuote(s: string) {
    s != "" && s[0] == '"' && '"' !in s[1..]
  }

  /** The first argument as typed, and the line after it. */
  function First(s: string): (Piece, string)
    requires s != "" && s[0] != ' '
  {
    if s[0] == '"' then
      var n := Until(s[1..], '"');
      if n == |s| - 1 then (Piece(s[1..], true, 0), "")
      else
        var rest := s[n + 2..];
        (Piece(s[1..n + 1], true, |rest| - |Strip(rest)|), Strip(rest))
    else
      var n := Until(s, ' ');
      var rest := s[n..];
      (Piece(s[..n], false, |rest| - |Strip(rest)|), Strip(rest))
  }

  lemma SplitAtQuotes(s: string, n: nat)
    requires n + 1 < |s| && s[0] == '"' && s[n + 1] == '"'
    ensures s == "\"" + (s[1..n + 1] + ("\"" + s[n + 2..]))
  {}

  lemma CloseOfQuote(s: string)
    requires s != "" && s[0] == '"' && !OpenQuote(s)
    ensures var n := Until(s[1..], '"'); n + 1 < |s| && s[n + 1] == '"' && '"' !in s[1..n + 1]
  {
    var n := Until(s[1..], '"');
    assert s[1..][..n] == s[1..n + 1];
    assert s[1..][..|s| - 1] == s[1..];
  }

  lemma QuotedPiece(u: string, rest: string)
    ensures |rest| >= |Strip(rest)|
    ensures "\"" + (u + ("\"" + rest)) == Typed(Piece(u, true, |rest| - |Strip(rest)|)) + Strip(rest)
  {
    StripIsSpaces(rest);
    TypedThen(Piece(u, true, |rest| - |Strip(rest)|), Strip(rest));
  }

  lemma FirstQuoted(s: string)
    requires s != "" && s[0] == '"' && !OpenQuote(s)
    ensures var (p, next) := First(s);
            |next| < |s| && (next == "" || next[0] != ' ') && s == Typed(p) + next && Typable(p, next == "")
  {
    var n := Until(s[1..], '"');
    assert n + 1 < |s| && '"' !in s[1..n + 1] by { CloseOfQuote(s); }
    var u, rest := s[1..n + 1], s[n + 2..];
    var p, next := Piece(u, true, |rest| - |Strip(rest)|), Strip(rest);
    assert First(s) == (p, next);
    assert s == Typed(p) + next by {
      CloseOfQuote(s);
      SplitAtQuotes(s, n);
      QuotedPiece(u, rest);
    }
    assert Typable(p, next == "") && |next| <= |rest| < |s|;
  }

  lemma FirstBare(s: string)
    requires s != "" && s[0] != ' ' && s[0] != '"'
    ensures var (p, next) := First(s);
            |next| < |s| && (next == "" || next[0] != ' ') && s == Typed(p) + next && Typable(p, next == "")
  {
    var n := Until(s, ' ');
    StripIsSpaces(s[n..]);
    assert s == s[..n] + s[n..];
    TypedThen(First(s).0, First(s).1);
    assert s[0] == s[..n][0];
  }

  lemma FirstIsFaithful(s: string)
    requires s != "" && s[0] != ' ' && !OpenQuote(s)
    ensures var (p, next) := First(s);
            |next| < |s| && (next == "" || next[0] != ' ') && s == Typed(p) + next && Typable(p, next == "")
  {
    if s[0] == '"' { FirstQuoted(s); } else { FirstBare(s); }
  }

  /** The pieces of a line, and what is left when a quote is not closed. */
  ghost function Layout(s: string): (seq<Piece>, string)
    requires s == "" || s[0] != ' '
    decreases |s|
  {
    if s == "" || OpenQuote(s) then ([], s)
    else
      FirstIsFaithful(s);
      var (p, next) := First(s);
      var (ps, tail) := Layout(next);
      ([p] + ps, tail)
  }

  lemma TypableCons(p: Piece, ps: seq<Piece>, atEnd: bool)
    requires AllTypable(ps, atEnd) && Typable(p, atEnd && ps == [])
    ensures AllTypable([p] + ps, atEnd)
  {
    forall i | 0 <= i < |[p] + ps| ensures Typable(([p] + ps)[i], atEnd && i == |ps|) {
      assert i > 0 ==> ([p] + ps)[i] == ps[i - 1];
    }
  }

  /** Every line is its pieces as typed, in order, and then nothing or one unclosed quote. */
  lemma {:induction false} LayoutIsFaithful(s: string)
    requires s == "" || s[0] != ' '
    ensures var (ps, tail) := Layout(s);
            && s == Show(ps) + tail && AllTypable(ps, tail == "")
            && (tail == "" || OpenQuote(tail)) && (tail == "" && ps == [] <==> s == "")
    decreases |s|
  {
    if s != "" && !OpenQuote(s) {
      FirstIsFaithful(s);
      var (p, next) := First(s);
      LayoutIsFaithful(next);
      var (ps, tail) := Layout(next);
      TypableCons(p, ps, tail == "");
      ShowCons(p, ps, tail);
    }
  }

  lemma ScanOpenQuote(tail: string)
    requires OpenQuote(tail)
    ensures Scan(tail) == ([tail[1..]], false)
  {
    UntilAfter(tail[1..], "", '"');
    assert tail[1..] + "" == tail[1..];
  }

  lemma ScanOfLayout(s: string)
    requires s == "" || s[0] != ' '
    ensures var (ps, tail) := Layout(s);
            && Scan(s).1 == (tail == "")
            && Scan(s).0 == if tail == "" then Texts(ps) else Texts(ps) + [tail[1..]]
  {
    var (ps, tail) := Layout(s);
    LayoutIsFaithful(s);
    ScanShow(ps, tail);
    if tail != "" {
      ScanOpenQuote(tail);
    } else {
      assert Texts(ps) + [] == Texts(ps);
    }
  }

  /** Main result, conservation. A line parses exactly when its pieces account for all of it, and
      then the arguments are their texts in order: only the spaces between arguments and the
      delimiting quotes are dropped. It fails exactly when it ends in an unclosed quote. */
  lemma ParseIsConservative(line: string)
    ensures var s := Strip(line);
            var (ps, tail) := Layout(s);
            && line == Spaces(|line| - |s|) + (Show(ps) + tail)
            && AllTypable(ps, tail == "")
            && (Scan(s).1 <==> tail == "") && (!Scan(s).1 <==> OpenQuote(tail))
            && (Scan(s).1 ==> Scan(s).0 == Texts(ps))
  {
    StripIsSpaces(line);
    LayoutIsFaithful(Strip(line));
    ScanOfLayout(Strip(line));
  }
}
