/** Finite sets of numbers in ascending order. */
module OrderedSets {

  lemma {:induction false} LeastMember(s: set<nat>) returns (m: nat)
    requires s != {}
    ensures m in s && forall x :: x in s ==> m <= x
  {
    m :| m in s;
    if s != {m} {
      var t := s - {m};
      var k := LeastMember(t);
      assert forall x :: x in s ==> x == m || x in t;
      if k <= m { m := k; }
    }
  }

  function Min(s: set<nat>): (m: nat)
    requires s != {}
    ensures m in s && forall x :: x in s ==> m <= x
  {
    assert exists m :: m in s && forall x :: x in s ==> m <= x by { var k := LeastMember(s); }
    var m :| m in s && forall x :: x in s ==> m <= x;
    m
  }

  /** The members of `s`, smallest first. */
  function Ascending(s: set<nat>): (a: seq<nat>)
    ensures forall i, j :: 0 <= i < j < |a| ==> a[i] < a[j]
    ensures forall x :: x in a <==> x in s
  {
    if s == {} then []
    else
      var m := Min(s);
      var rest := Ascending(s - {m});
      assert forall i :: 0 <= i < |rest| ==> rest[i] in s - {m};
      [m] + rest
  }

  /** There is only one such order. */
  lemma {:induction false} AscendingUnique(a: seq<nat>, b: seq<nat>)
    requires forall i, j :: 0 <= i < j < |a| ==> a[i] < a[j]
    requires forall i, j :: 0 <= i < j < |b| ==> b[i] < b[j]
    requires forall x :: x in a <==> x in b
    ensures a == b
    decreases |a|
  {
    assert b != [] ==> b[0] in a;
    if a != [] {
      assert a[0] in b;
      assert a[0] == b[0];
      forall x
        ensures x in a[1..] <==> x in b[1..]
      {
        assert x in a[1..] <==> x in a && x != a[0];
        assert x in b[1..] <==> x in b && x != b[0];
      }
      AscendingUnique(a[1..], b[1..]);
    }
  }
}
