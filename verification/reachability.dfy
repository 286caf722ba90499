// Ancestry in a block graph: the reflexive-transitive closure of parent edges.
module Reachability {
  import opened Blocks

  // `a` lies `n` parent edges below `d`.
  ghost predicate ReachesIn(hs: Headers, a: Id, d: Id, n: nat)
    decreases n
  {
    if n == 0 then a == d
    else d in hs && exists p :: p in hs[d].parents && ReachesIn(hs, a, p, n - 1)
  }

  // `a` is `d` or in its past.
  ghost predicate Reaches(hs: Headers, a: Id, d: Id) {
    exists n: nat :: ReachesIn(hs, a, d, n)
  }

  // `a` and `b` are two blocks in each other's anticone.
  ghost predicate Concurrent(hs: Headers, a: Id, b: Id) {
    !Reaches(hs, a, b) && !Reaches(hs, b, a)
  }

  // Every parent of a held block is held.
  ghost predicate Closed(hs: Headers) {
    forall d, p :: d in hs && p in hs[d].parents ==> p in hs
  }

  lemma ReachesSelf(hs: Headers, a: Id)
    ensures Reaches(hs, a, a)
  {
    assert ReachesIn(hs, a, a, 0);
  }

  lemma ReachesStep(hs: Headers, a: Id, p: Id, d: Id)
    requires d in hs && p in hs[d].parents
    requires Reaches(hs, a, p)
    ensures Reaches(hs, a, d)
  {
    var n: nat :| ReachesIn(hs, a, p, n);
    assert ReachesIn(hs, a, d, n + 1);
  }

  lemma ReachesParent(hs: Headers, p: Id, d: Id)
    requires d in hs && p in hs[d].parents
    ensures Reaches(hs, p, d)
  {
    ReachesSelf(hs, p);
    ReachesStep(hs, p, p, d);
  }

  // A proper ancestor is an ancestor of some parent.
  lemma ReachesSplit(hs: Headers, a: Id, d: Id) returns (p: Id)
    requires Reaches(hs, a, d) && a != d
    ensures d in hs && p in hs[d].parents && Reaches(hs, a, p)
  {
    var n: nat :| ReachesIn(hs, a, d, n);
    p :| p in hs[d].parents && ReachesIn(hs, a, p, n - 1);
  }

  lemma {:induction false} ReachesInTrans(hs: Headers, a: Id, b: Id, c: Id, n: nat)
    requires Reaches(hs, a, b) && ReachesIn(hs, b, c, n)
    ensures Reaches(hs, a, c)
    decreases n
  {
    if n == 0 {
    } else {
      var p :| p in hs[c].parents && ReachesIn(hs, b, p, n - 1);
      ReachesInTrans(hs, a, b, p, n - 1);
      ReachesStep(hs, a, p, c);
    }
  }

  lemma ReachesTrans(hs: Headers, a: Id, b: Id, c: Id)
    requires Reaches(hs, a, b) && Reaches(hs, b, c)
    ensures Reaches(hs, a, c)
  {
    var n: nat :| ReachesIn(hs, b, c, n);
    ReachesInTrans(hs, a, b, c, n);
  }

  // An invariant carried down parent edges holds of every ancestor: if `s` holds
  // `d` and with every member the parents that still have `a` in their past,
  // then `s` holds `a`.
  lemma {:induction false} ReachesInduct(hs: Headers, a: Id, d: Id, n: nat, s: set<Id>)
    requires ReachesIn(hs, a, d, n) && d in s
    requires forall x, p :: x in s && x in hs && p in hs[x].parents && Reaches(hs, a, p) ==> p in s
    ensures a in s
    decreases n
  {
    if n == 0 {
    } else {
      var p :| p in hs[d].parents && ReachesIn(hs, a, p, n - 1);
      assert Reaches(hs, a, p);
      ReachesInduct(hs, a, p, n - 1, s);
    }
  }

  lemma ReachesStaysIn(hs: Headers, a: Id, d: Id, s: set<Id>)
    requires Reaches(hs, a, d) && d in s
    requires forall x, p :: x in s && x in hs && p in hs[x].parents && Reaches(hs, a, p) ==> p in s
    ensures a in s
  {
    var n: nat :| ReachesIn(hs, a, d, n);
    ReachesInduct(hs, a, d, n, s);
  }

  // A set of blocks on which two graphs agree and which both close under parents.
  ghost predicate SharedPast(hs: Headers, hs': Headers, s: set<Id>) {
    forall x :: x in s ==>
      && x in hs && x in hs' && hs[x] == hs'[x]
      && forall p :: p in hs[x].parents ==> p in s
  }

  lemma {:induction false} ReachesInLocal(hs: Headers, hs': Headers, s: set<Id>, a: Id, d: Id, n: nat)
    requires SharedPast(hs, hs', s) && d in s && ReachesIn(hs, a, d, n)
    ensures ReachesIn(hs', a, d, n) && a in s
    decreases n
  {
    if n == 0 {
    } else {
      var p :| p in hs[d].parents && ReachesIn(hs, a, p, n - 1);
      ReachesInLocal(hs, hs', s, a, p, n - 1);
    }
  }

  // Ancestry is decided by a block's past alone.
  lemma ReachesLocal(hs: Headers, hs': Headers, s: set<Id>, a: Id, d: Id)
    requires SharedPast(hs, hs', s) && d in s
    ensures Reaches(hs, a, d) <==> Reaches(hs', a, d)
    ensures Reaches(hs, a, d) ==> a in s
  {
    if Reaches(hs, a, d) {
      var n: nat :| ReachesIn(hs, a, d, n);
      ReachesInLocal(hs, hs', s, a, d, n);
    }
    if Reaches(hs', a, d) {
      var n: nat :| ReachesIn(hs', a, d, n);
      ReachesInLocal(hs', hs, s, a, d, n);
    }
  }
}
