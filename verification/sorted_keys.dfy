// Ascending keys: how sorted maps and sets are walked.
module SortedKeys {

  ghost function LeastOf(s: set<nat>): (m: nat)
    requires s != {}
    ensures m in s && forall y :: y in s ==> m <= y
  {
    var x :| x in s;
    if s == {x} then x else
      assert s - {x} != {};
      var m := LeastOf(s - {x});
      assert forall y :: y in s ==> y == x || y in s - {x};
      if x < m then x else m
  }

  // Ascending keys: how a sorted map is walked.
  ghost function Ascending(s: set<nat>): (q: seq<nat>)
    ensures |q| == |s|
  {
    if s == {} then [] else [LeastOf(s)] + Ascending(s - {LeastOf(s)})
  }

  lemma {:induction false} AscendingLists(s: set<nat>)
    ensures forall x :: x in Ascending(s) <==> x in s
    ensures forall i, j :: 0 <= i < j < |Ascending(s)| ==> Ascending(s)[i] < Ascending(s)[j]
    decreases s
  {
    if s != {} {
      var m := LeastOf(s);
      var tail := Ascending(s - {m});
      AscendingLists(s - {m});
      forall i, j | 0 <= i < j < |Ascending(s)| ensures Ascending(s)[i] < Ascending(s)[j] {
        assert Ascending(s)[j] == tail[j - 1];
        assert tail[j - 1] in s - {m};
      }
    }
  }

  method InOrder(s: set<nat>) returns (q: seq<nat>)
    ensures q == Ascending(s)
  {
    q := [];
    var rest := s;
    while rest != {}
      invariant Ascending(s) == q + Ascending(rest)
      decreases rest
    {
      assert LeastOf(rest) in rest && forall y :: y in rest ==> LeastOf(rest) <= y;
      var m :| m in rest && forall y :: y in rest ==> m <= y;
      q := q + [m];
      rest := rest - {m};
    }
  }
}
