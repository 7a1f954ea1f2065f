/** What survives on disk. A purchase of a missing flight leaves its transaction open, so the
    file can lag behind the answers a connection has given; these lemmas say by how much. */
module Durability {
  import opened Types
  import opened Tables
  import opened Database

  predicate Sold(t: Tables, rs: seq<Request>, i: nat)
    requires i < |rs|
  {
    rs[i].Purchase? && HasFlight(After(t, rs[..i]), rs[i].flight)
  }

  predicate Refused(t: Tables, rs: seq<Request>, i: nat)
    requires i < |rs|
  {
    rs[i].Purchase? && !HasFlight(After(t, rs[..i]), rs[i].flight)
  }

  /** `k` is the point up to which the commands are on disk: all of them, or else those before
      the first refused purchase since the last sale. */
  ghost predicate IsCommitPoint(t: Tables, rs: seq<Request>, k: nat) {
    && k <= |rs|
    && (k < |rs| ==> Refused(t, rs, k))
    && (forall j :: k <= j < |rs| ==> !Sold(t, rs, j))
    && SalesFollow(t, rs, k)
  }

  ghost function CommitPoint(t: Tables, rs: seq<Request>): (k: nat)
    ensures k <= |rs|
  {
    if rs == [] then 0
    else
      var n := |rs| - 1;
      var before := CommitPoint(t, rs[..n]);
      if Sold(t, rs, n) then n + 1
      else if before < n || Refused(t, rs, n) then before
      else n + 1
  }

  lemma PrefixStatus(t: Tables, rs: seq<Request>, n: nat, i: nat)
    requires i < n <= |rs|
    ensures Sold(t, rs[..n], i) == Sold(t, rs, i)
    ensures Refused(t, rs[..n], i) == Refused(t, rs, i)
  {
    assert rs[..n][..i] == rs[..i];
  }

  /** Every refused purchase before the commit point is followed by a sale before it. */
  ghost predicate SalesFollow(t: Tables, rs: seq<Request>, k: nat)
    requires k <= |rs|
  {
    forall i :: 0 <= i < k && Refused(t, rs, i) ==> exists j :: i < j < k && Sold(t, rs, j)
  }

  lemma SalesFollowOn(t: Tables, rs: seq<Request>, n: nat, k: nat)
    requires k <= n <= |rs| && SalesFollow(t, rs[..n], k)
    ensures SalesFollow(t, rs, k)
  {
    forall i | 0 <= i < k && Refused(t, rs, i) ensures exists j :: i < j < k && Sold(t, rs, j) {
      PrefixStatus(t, rs, n, i);
      assert Refused(t, rs[..n], i);
      var j :| i < j < k && Sold(t, rs[..n], j);
      PrefixStatus(t, rs, n, j);
    }
  }

  lemma NoSaleOn(t: Tables, rs: seq<Request>, n: nat, k: nat)
    requires k <= n < |rs| && (forall j :: k <= j < n ==> !Sold(t, rs[..n], j)) && !Sold(t, rs, n)
    ensures forall j :: k <= j <= n ==> !Sold(t, rs, j)
  {
    forall j | k <= j < n ensures !Sold(t, rs, j) {
      PrefixStatus(t, rs, n, j);
    }
  }

  lemma {:induction false} CommitPointMeaning(t: Tables, rs: seq<Request>)
    ensures IsCommitPoint(t, rs, CommitPoint(t, rs))
  {
    if rs != [] {
      var n := |rs| - 1;
      var k := CommitPoint(t, rs[..n]);
      CommitPointMeaning(t, rs[..n]);
      if Sold(t, rs, n) {
        assert CommitPoint(t, rs) == n + 1;
      } else {
        NoSaleOn(t, rs, n, k);
        SalesFollowOn(t, rs, n, k);
        if k < n { PrefixStatus(t, rs, n, k); }
      }
    }
  }

  /** The description fits one number only, so it defines the commit point. */
  lemma CommitPointIsUnique(t: Tables, rs: seq<Request>, k: nat)
    ensures IsCommitPoint(t, rs, k) <==> k == CommitPoint(t, rs)
  {
    CommitPointMeaning(t, rs);
  }

  /** Main result. After any commands on one connection the answers and the working tables are
      those of the sequential specification, and the file holds exactly the commands before
      the commit point; a transaction is open exactly when something is missing from it. */
  lemma {:induction false} DurablePrefix(t: Tables, rs: seq<Request>)
    ensures Run(Opened(t), rs).working == After(t, rs)
    ensures Run(Opened(t), rs).durable == After(t, rs[..CommitPoint(t, rs)])
    ensures Run(Opened(t), rs).open == (CommitPoint(t, rs) < |rs|)
    ensures IsCommitPoint(t, rs, CommitPoint(t, rs))
  {
    CommitPointMeaning(t, rs);
    if rs != [] {
      var n := |rs| - 1;
      DurablePrefix(t, rs[..n]);
      var k := CommitPoint(t, rs);
      if k <= n {
        assert rs[..n][..k] == rs[..k];
      } else {
        assert rs[..k] == rs;
      }
    }
  }

  /** One more command on a connection: the database moves and replies as the specification
      does after the commands before it. */
  lemma ExecuteNext(t: Tables, before: seq<Request>, r: Request)
    ensures Execute(Run(Opened(t), before), r) == Run(Opened(t), before + [r])
    ensures Apply(Run(Opened(t), before).working, r).1 == ReplyAt(t, before + [r], |before|)
  {
    DurablePrefix(t, before);
    RunSnoc(Opened(t), before, r);
    AfterSnoc(t, before, r);
  }

  /** What an exit discards: flights added and tickets cancelled since the commit point, and
      never a sale. */
  lemma ExitLosesNoSale(t: Tables, rs: seq<Request>, i: nat)
    requires i < |rs|
    ensures Sold(t, rs, i) ==> i < CommitPoint(t, rs)
    ensures CommitPoint(t, rs) <= i && Apply(After(t, rs[..i]), rs[i]).0 != After(t, rs[..i])
            ==> rs[i].AddFlight? || rs[i].Cancel?
  {
    CommitPointMeaning(t, rs);
  }

  /** The loss is real: a flight whose addition was answered is gone after the exit. */
  lemma AnsweredFlightCanBeLost()
    ensures var rs := [Purchase(7), AddFlight(0, 1, 2)];
            && ReplyAt(EMPTY, rs, 1) == Some(Added(1))
            && HasFlight(Run(Opened(EMPTY), rs).working, 1)
            && !HasFlight(Run(Opened(EMPTY), rs).durable, 1)
  {
    var rs := [Purchase(7), AddFlight(0, 1, 2)];
    assert rs[..1] == [Purchase(7)] && rs[..1][..0] == [];
    assert After(EMPTY, rs[..1]) == EMPTY;
    assert Run(Opened(EMPTY), rs[..1]) == Conn(EMPTY, EMPTY, true);
    assert Run(Opened(EMPTY), rs).working.flights[0] == Flight(1, 0, 1, 2);
  }

  // ---- ticket identity across sessions ----

  /** Each session opens the file, runs its commands, and ends by exit: only what is durable
      stays. */
  ghost function FileAfter(t: Tables, sessions: seq<seq<Request>>): Tables {
    if sessions == [] then t
    else Run(Opened(FileAfter(t, sessions[..|sessions| - 1])), sessions[|sessions| - 1]).durable
  }

  /** Rowids of the tickets sold by one session, in order. */
  ghost function Issued(t: Tables, rs: seq<Request>): seq<int> {
    if rs == [] then []
    else
      var n := |rs| - 1;
      Issued(t, rs[..n]) + (if Sold(t, rs, n) then [After(t, rs[..n]).ticketSeq + 1] else [])
  }

  ghost function AllIssued(t: Tables, sessions: seq<seq<Request>>): seq<int> {
    if sessions == [] then []
    else
      var n := |sessions| - 1;
      AllIssued(t, sessions[..n]) + Issued(FileAfter(t, sessions[..n]), sessions[n])
  }

  ghost predicate IncreasingWithin(s: seq<int>, low: int, high: int) {
    && low <= high
    && (forall i :: 0 <= i < |s| ==> low < s[i] <= high)
    && (forall i, j :: 0 <= i < j < |s| ==> s[i] < s[j])
  }

  lemma {:induction false} IssuedIncreases(t: Tables, rs: seq<Request>)
    ensures IncreasingWithin(Issued(t, rs), t.ticketSeq, After(t, rs).ticketSeq)
  {
    if rs != [] {
      IssuedIncreases(t, rs[..|rs| - 1]);
    }
  }

  /** No ticket id is ever issued twice, in whatever sessions, failed purchases, cancellations
      and exits; ids grow. */
  lemma {:induction false} TicketIdsIncrease(t: Tables, sessions: seq<seq<Request>>)
    requires Valid(t)
    ensures Valid(FileAfter(t, sessions))
    ensures IncreasingWithin(AllIssued(t, sessions), t.ticketSeq, FileAfter(t, sessions).ticketSeq)
  {
    if sessions != [] {
      var n := |sessions| - 1;
      TicketIdsIncrease(t, sessions[..n]);
      var file := FileAfter(t, sessions[..n]);
      IssuedIncreases(file, sessions[n]);
      RunKeepsValid(Opened(file), sessions[n]);
      DurablePrefix(file, sessions[n]);
    }
  }

  /** When a purchase is answered with a ticket, that ticket is already in the file; the answer
      is -1 exactly when the flight is absent or the rowid has the bit pattern of -1. */
  lemma SaleIsDurable(t: Tables, rs: seq<Request>, flight: int)
    ensures var c := Run(Opened(t), rs);
            var id := c.working.ticketSeq + 1;
            var reply := Apply(c.working, Purchase(flight)).1;
            && (HasFlight(After(t, rs), flight) ==>
                  && reply == Some(Seat(ToInt32(id)))
                  && id in Execute(c, Purchase(flight)).durable.tickets
                  && Execute(c, Purchase(flight)).durable.tickets[id] == flight)
            && (reply == Some(Seat(-1)) <==>
                  !HasFlight(After(t, rs), flight) || id % 0x1_0000_0000 == 0xFFFF_FFFF)
  {
    DurablePrefix(t, rs);
  }
}
