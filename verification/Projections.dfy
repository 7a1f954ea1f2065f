/** Picking, in order, what one process has put into a queue or a log. */
module Projections {
  import opened Types

  function Pick<A, B>(s: seq<A>, f: A -> Option<B>): seq<B> {
    if s == [] then []
    else match f(s[0])
         case Some(b) => [b] + Pick(s[1..], f)
         case None => Pick(s[1..], f)
  }

  lemma {:induction false} PickConcat<A, B>(s: seq<A>, u: seq<A>, f: A -> Option<B>)
    ensures Pick(s + u, f) == Pick(s, f) + Pick(u, f)
  {
    if s == [] {
      assert s + u == u;
    } else {
      assert (s + u)[1..] == s[1..] + u;
      PickConcat(s[1..], u, f);
    }
  }

  lemma PickSnoc<A, B>(s: seq<A>, a: A, f: A -> Option<B>)
    ensures Pick(s + [a], f) == Pick(s, f) + (if f(a).Some? then [f(a).value] else [])
  {
    PickConcat(s, [a], f);
  }

  lemma {:induction false} PickNothing<A, B>(s: seq<A>, f: A -> Option<B>)
    requires forall i :: 0 <= i < |s| ==> f(s[i]) == None
    ensures Pick(s, f) == []
  {
    if s != [] {
      PickNothing(s[1..], f);
    }
  }

  /** What is left after taking out the element at `i`. */
  function Without<A>(s: seq<A>, i: nat): seq<A>
    requires i < |s|
  {
    s[..i] + s[i + 1..]
  }

  /** Taking out an element that is not picked leaves the pick alone; taking out the first
      picked element takes it off the front. */
  lemma PickWithout<A, B>(s: seq<A>, i: nat, f: A -> Option<B>)
    requires i < |s|
    ensures f(s[i]) == None ==> Pick(Without(s, i), f) == Pick(s, f)
    ensures f(s[i]).Some? && (forall j :: 0 <= j < i ==> f(s[j]) == None) ==>
              Pick(s, f) == [f(s[i]).value] + Pick(Without(s, i), f)
  {
    var rest := s[i + 1..];
    assert s[i..][1..] == rest;
    assert Pick(s, f) == Pick(s[..i], f) + Pick(s[i..], f) by {
      assert s == s[..i] + s[i..];
      PickConcat(s[..i], s[i..], f);
    }
    PickConcat(s[..i], rest, f);
    if forall j :: 0 <= j < i ==> f(s[j]) == None {
      PickNothing(s[..i], f);
    }
  }

  /** Where each picked element comes from. */
  ghost predicate PickedAt<A, B>(s: seq<A>, f: A -> Option<B>, at: seq<nat>) {
    && |at| == |Pick(s, f)|
    && (forall k :: 0 <= k < |at| ==> at[k] < |s|)
    && (forall k :: 0 <= k < |at| ==> f(s[at[k]]) == Some(Pick(s, f)[k]))
    && (forall k, l :: 0 <= k < l < |at| ==> at[k] < at[l])
  }

  ghost function Places<A, B>(s: seq<A>, f: A -> Option<B>): (at: seq<nat>)
    decreases |s|
  {
    if s == [] then []
    else
      var n := |s| - 1;
      Places(s[..n], f) + (if f(s[n]).Some? then [n] else [])
  }

  lemma {:induction false} PlacesArePicks<A, B>(s: seq<A>, f: A -> Option<B>)
    ensures PickedAt(s, f, Places(s, f))
    decreases |s|
  {
    if s != [] {
      var n := |s| - 1;
      PlacesArePicks(s[..n], f);
      assert s[..n] + [s[n]] == s;
      PickSnoc(s[..n], s[n], f);
    }
  }

  /** What is picked after a prefix's picks comes from after that prefix. */
  lemma {:induction false} PlaceAfterPrefix<A, B>(s: seq<A>, f: A -> Option<B>, n: nat, k: nat)
    requires n <= |s| && |Pick(s[..n], f)| <= k < |Places(s, f)|
    ensures n <= Places(s, f)[k]
    decreases |s|
  {
    PlacesArePicks(s, f);
    assert s[..|s|] == s;
    if n < |s| {
      var m := |s| - 1;
      if k < |Places(s[..m], f)| {
        assert s[..m][..n] == s[..n];
        PlaceAfterPrefix(s[..m], f, n, k);
      }
    }
  }
}
