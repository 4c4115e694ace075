/** Rows of a query ordered by an integer key. */
module Ordering {
  import Picking

  ghost predicate StrictlyAscending(s: seq<int>) {
    forall i, j :: 0 <= i < j < |s| ==> s[i] < s[j]
  }

  lemma {:induction false} LeastExists(s: set<int>) returns (least: int)
    requires s != {}
    ensures least in s && forall x :: x in s ==> least <= x
    decreases s
  {
    var x := Picking.Member(s);
    var rest := s - {x};
    assert s == rest + {x};
    if rest == {} {
      least := x;
    } else {
      var other := LeastExists(rest);
      least := if x < other then x else other;
    }
  }

  lemma LeastIn(s: set<int>)
    ensures s != {} ==> exists x :: x in s && forall y :: y in s ==> x <= y
  {
    if s != {} {
      var _ := LeastExists(s);
    }
  }

  function Least(s: set<int>): (x: int)
    requires s != {}
    ensures x in s && forall y :: y in s ==> x <= y
  {
    LeastIn(s);
    var x :| x in s && forall y :: y in s ==> x <= y;
    x
  }

  function Ascending(s: set<int>): (r: seq<int>)
    ensures forall x :: x in r <==> x in s
    ensures StrictlyAscending(r)
    decreases s
  {
    if s == {} then [] else [Least(s)] + Ascending(s - {Least(s)})
  }

  lemma HeadAndTail(r: seq<int>)
    requires r != [] && StrictlyAscending(r)
    ensures r[0] in r && StrictlyAscending(r[1..])
    ensures forall x :: x in r ==> r[0] <= x
    ensures forall x :: x in r[1..] <==> x in r && x != r[0]
  {
    forall x | x in r && x != r[0] ensures x in r[1..] && r[0] <= x {
      var i :| 0 <= i < |r| && r[i] == x;
      assert r[1..][i - 1] == x;
    }
    forall x | x in r[1..] ensures x in r && x != r[0] {
      var i :| 0 <= i < |r| - 1 && r[1..][i] == x;
      assert r[i + 1] == x;
    }
  }

  lemma {:induction false} SameAscending(a: seq<int>, b: seq<int>)
    requires StrictlyAscending(a) && StrictlyAscending(b) && forall x :: x in a <==> x in b
    ensures a == b
  {
    if b != [] { assert b[0] in b; }
    if a != [] {
      assert a[0] in a;
      HeadAndTail(a);
      HeadAndTail(b);
      SameAscending(a[1..], b[1..]);
      assert a == [a[0]] + a[1..] && b == [b[0]] + b[1..];
    }
  }

  /** The ascending list of a set is the only one. */
  lemma AscendingUnique(s: set<int>, r: seq<int>)
    requires (forall x :: x in r <==> x in s) && StrictlyAscending(r)
    ensures r == Ascending(s)
  {
    SameAscending(r, Ascending(s));
  }

  lemma Positions(all: seq<int>, k: nat, x: int)
    requires StrictlyAscending(all) && k < |all|
    ensures x in all[k + 1..] <==> x in all && x > all[k]
  {
    if x in all && x > all[k] {
      var i :| 0 <= i < |all| && all[i] == x;
      assert all[k + 1..][i - k - 1] == x;
    }
    if x in all[k + 1..] {
      var i :| 0 <= i < |all| - k - 1 && all[k + 1..][i] == x;
      assert all[k + 1 + i] == x;
    }
  }

  /** The elements above one of them are listed behind it. */
  lemma AscendingAbove(s: set<int>, all: seq<int>, k: nat, above: set<int>)
    requires all == Ascending(s) && k < |all|
    requires forall x :: x in above <==> x in s && x > all[k]
    ensures Ascending(above) == all[k + 1..]
  {
    forall x ensures x in all[k + 1..] <==> x in above {
      Positions(all, k, x);
    }
    AscendingUnique(above, all[k + 1..]);
  }
}
