// Rounds as the parallel executor recovers them from the canonical order.
module Rounds {
  import opened Blocks
  import opened Seqs
  import opened Ordering

  predicate Clashes(touched: set<Address>, keys: seq<Address>) {
    exists key :: key in keys && key in touched
  }

  predicate Indices(access: Access, order: seq<nat>) {
    forall n :: 0 <= n < |order| ==> order[n] < |access|
  }

  // `partition_rounds`, from the group being collected on.
  function Partition(access: Access, order: seq<nat>, current: seq<nat>, touched: set<Address>): seq<seq<nat>>
    requires Indices(access, order)
    decreases |order|
  {
    if order == [] then
      if current == [] then [] else [current]
    else
      var x := order[0];
      if Clashes(touched, access[x]) && current != [] then
        [current] + Partition(access, order[1..], [x], KeySet(access, x))
      else
        Partition(access, order[1..], current + [x], touched + KeySet(access, x))
  }

  function KeySet(access: Access, x: nat): set<Address>
    requires x < |access|
  {
    set key | key in access[x]
  }

  // `partition_rounds`
  method PartitionRounds(access: Access, order: seq<nat>) returns (rounds: seq<seq<nat>>)
    requires Indices(access, order)
    ensures rounds == Partition(access, order, [], {})
  {
    rounds := [];
    var current: seq<nat> := [];
    var touched: set<Address> := {};
    ghost var goal := Partition(access, order, [], {});
    for i := 0 to |order|
      invariant goal == rounds + Partition(access, order[i..], current, touched)
    {
      assert order[i..][1..] == order[i + 1..];
      var keys := access[order[i]];
      if Clashes(touched, keys) && current != [] {
        rounds := rounds + [current];
        current := [];
        touched := {};
      }
      touched := touched + KeySet(access, order[i]);
      current := current + [order[i]];
      assert {} + KeySet(access, order[i]) == KeySet(access, order[i]) && [] + [order[i]] == [order[i]];
    }
    assert order[|order|..] == [];
    if current != [] {
      rounds := rounds + [current];
    }
  }

  function Flatten(groups: seq<seq<nat>>): seq<nat> {
    if groups == [] then [] else groups[0] + Flatten(groups[1..])
  }

  ghost predicate Unsaturated(access: Access) {
    forall i :: 0 <= i < |access| ==> Depth(access, i) <= U32_MAX
  }

  // The groups are exactly the layers `g`, `g + 1`, ... in order.
  ghost predicate Layers(access: Access, groups: seq<seq<nat>>, g: nat) {
    forall h :: 0 <= h < |groups| ==> groups[h] != [] && forall x :: x in groups[h] ==> Depth(access, x) == g + h
  }

  // The state between two transactions: `current` holds the transactions of
  // depth `g` met so far, everything before it is shallower.
  ghost predicate Collecting(access: Access, order: seq<nat>, n: nat, g: nat, current: seq<nat>,
      touched: set<Address>) {
    && Canonical(access, order) && Unsaturated(access) && |current| <= n <= |order|
    && current == order[n - |current|..n]
    && (forall x :: x in current ==> Depth(access, x) == g)
    && (forall x :: x in order[..n - |current|] ==> Depth(access, x) < g)
    && (forall key :: key in touched <==> exists x :: x in current && Touches(access, x, key))
    && (current == [] ==> n == 0 && g == 0)
  }

  // A transaction of depth `g` joins; one deeper clashes and is of depth `g + 1`.
  lemma NextDepth(access: Access, order: seq<nat>, n: nat, g: nat, current: seq<nat>, touched: set<Address>)
    requires Collecting(access, order, n, g, current, touched) && n < |order|
    ensures order[n] < |access|
    ensures Depth(access, order[n]) == if Clashes(touched, access[order[n]]) && current != [] then g + 1 else g
  {
    var x := order[n];
    assert x in order;
    if current != [] {
      assert current[|current| - 1] == order[n - 1] && current[|current| - 1] in current;
      assert order[n - 1] in order && Earlier(access, order[n - 1], x);
    }
    if Depth(access, x) > 0 {
      var y := DepthHasCause(access, x);
      CauseIsCurrent(access, order, n, g, current, y);
      if Depth(access, x) > g {
        SharedIsTouched(access, current, touched, y, x);
      }
    }
    if Clashes(touched, access[x]) {
      var y := ClashHasCause(access, current, touched, x);
      DifferentDepth(access, y, x);
    }
  }

  lemma SharedIsTouched(access: Access, current: seq<nat>, touched: set<Address>, y: nat, x: nat)
    requires forall key :: key in touched <==> exists z :: z in current && Touches(access, z, key)
    requires y in current && Conflict(access, y, x) && x < |access|
    ensures Clashes(touched, access[x])
  {
    var key :| Touches(access, y, key) && Touches(access, x, key);
    assert key in touched;
  }

  lemma ClashHasCause(access: Access, current: seq<nat>, touched: set<Address>, x: nat) returns (y: nat)
    requires forall key :: key in touched <==> exists z :: z in current && Touches(access, z, key)
    requires x < |access| && Clashes(touched, access[x])
    ensures y in current && Conflict(access, y, x)
  {
    var key :| key in access[x] && key in touched;
    y :| y in current && Touches(access, y, key);
    assert Touches(access, x, key);
  }

  lemma DifferentDepth(access: Access, y: nat, x: nat)
    requires Conflict(access, y, x) && x != y
    ensures Depth(access, y) != Depth(access, x)
  {
    if y < x { ConflictDeepens(access, y, x); } else { ConflictDeepens(access, x, y); }
  }

  lemma ShallowerIsEarlier(access: Access, order: seq<nat>, p: nat, n: nat)
    requires Canonical(access, order) && p < |order| && n < |order|
    requires Depth(access, order[p]) < Depth(access, order[n]) <= U32_MAX
    ensures p < n
  {
  }

  lemma CauseIsCurrent(access: Access, order: seq<nat>, n: nat, g: nat, current: seq<nat>, y: nat)
    requires exists touched :: Collecting(access, order, n, g, current, touched)
    requires n < |order| && y < |access| && Depth(access, y) < Depth(access, order[n])
    ensures Depth(access, y) <= g && current != []
    ensures Depth(access, y) == g ==> y in current
  {
    var touched :| Collecting(access, order, n, g, current, touched);
    var p := IndexOf(order, y);
    assert order[n] in order;
    ShallowerIsEarlier(access, order, p, n);
    if p < n - |current| {
      assert order[..n - |current|][p] == y;
    } else {
      assert current[p - (n - |current|)] == y;
    }
  }

  ghost predicate Recovered(access: Access, groups: seq<seq<nat>>, all: seq<nat>, g: nat) {
    Flatten(groups) == all && Layers(access, groups, g)
  }

  // One index is taken: it closes the current group or joins it.
  lemma PartitionOne(access: Access, order: seq<nat>, n: nat, rest: seq<nat>, g: nat, current: seq<nat>,
      touched: set<Address>)
    returns (closed: bool, current': seq<nat>, touched': set<Address>)
    requires Collecting(access, order, n, g, current, touched)
    requires rest == order[n..] && rest != [] && Indices(access, rest)
    ensures Indices(access, rest[1..]) && rest[1..] == order[n + 1..]
    ensures Collecting(access, order, n + 1, if closed then g + 1 else g, current', touched')
    ensures closed ==>
      && current != [] && (forall x :: x in current ==> Depth(access, x) == g) && current' + rest[1..] == rest
      && Partition(access, rest, current, touched) == [current] + Partition(access, rest[1..], current', touched')
    ensures !closed ==>
      && current' + rest[1..] == current + rest
      && Partition(access, rest, current, touched) == Partition(access, rest[1..], current', touched')
  {
    var x := rest[0];
    TailOf(order, n, rest, current);
    NextDepth(access, order, n, g, current, touched);
    PartitionFirst(access, rest, current, touched);
    closed := Clashes(touched, access[x]) && current != [];
    if closed {
      Split(access, order, n, g, current, touched);
      current', touched' := [x], KeySet(access, x);
    } else {
      Join(access, order, n, g, current, touched);
      current', touched' := current + [x], touched + KeySet(access, x);
    }
  }

  lemma {:induction false} PartitionLayers(access: Access, order: seq<nat>, n: nat, rest: seq<nat>, g: nat,
      current: seq<nat>, touched: set<Address>)
    requires Collecting(access, order, n, g, current, touched)
    requires rest == order[n..] && Indices(access, rest)
    ensures Recovered(access, Partition(access, rest, current, touched), current + rest, g)
    decreases |rest|
  {
    if rest == [] {
      LastGroup(access, current, g);
      assert current + rest == current;
    } else {
      var closed, current', touched' := PartitionOne(access, order, n, rest, g, current, touched);
      PartitionLayers(access, order, n + 1, rest[1..], if closed then g + 1 else g, current', touched');
      if closed {
        Prepend(access, current, Partition(access, rest[1..], current', touched'), rest, g);
      }
    }
  }

  lemma PartitionFirst(access: Access, rest: seq<nat>, current: seq<nat>, touched: set<Address>)
    requires rest != [] && Indices(access, rest)
    ensures Indices(access, rest[1..])
    ensures var x := rest[0];
      Partition(access, rest, current, touched)
      == if Clashes(touched, access[x]) && current != [] then [current] + Partition(access, rest[1..], [x], KeySet(access, x))
         else Partition(access, rest[1..], current + [x], touched + KeySet(access, x))
  {
  }

  lemma TailOf(order: seq<nat>, n: nat, rest: seq<nat>, current: seq<nat>)
    requires n <= |order| && rest == order[n..] && rest != []
    ensures n < |order| && rest[0] == order[n] && rest[1..] == order[n + 1..]
    ensures [rest[0]] + rest[1..] == rest && current + [rest[0]] + rest[1..] == current + rest
  {
  }

  lemma LastGroup(access: Access, current: seq<nat>, g: nat)
    requires forall x :: x in current ==> Depth(access, x) == g
    ensures Recovered(access, if current == [] then [] else [current], current, g)
  {
    assert Flatten([current]) == current + Flatten([]) == current;
  }

  lemma Prepend(access: Access, current: seq<nat>, groups: seq<seq<nat>>, rest: seq<nat>, g: nat)
    requires current != [] && Recovered(access, groups, rest, g + 1)
    requires forall x :: x in current ==> Depth(access, x) == g
    ensures Recovered(access, [current] + groups, current + rest, g)
  {
    assert ([current] + groups)[1..] == groups;
  }

  lemma Split(access: Access, order: seq<nat>, n: nat, g: nat, current: seq<nat>, touched: set<Address>)
    requires Collecting(access, order, n, g, current, touched) && n < |order| && order[n] < |access|
    requires Depth(access, order[n]) == g + 1 && current != []
    ensures Collecting(access, order, n + 1, g + 1, [order[n]], KeySet(access, order[n]))
  {
    var x := order[n];
    assert order[n + 1 - 1..n + 1] == [x];
    assert order[..n] == order[..n - |current|] + current;
    assert forall key :: key in KeySet(access, x) <==> Touches(access, x, key);
    assert x in [x];
  }

  lemma Join(access: Access, order: seq<nat>, n: nat, g: nat, current: seq<nat>, touched: set<Address>)
    requires Collecting(access, order, n, g, current, touched) && n < |order| && order[n] < |access|
    requires Depth(access, order[n]) == g
    ensures Collecting(access, order, n + 1, g, current + [order[n]], touched + KeySet(access, order[n]))
  {
    var x := order[n];
    var next := current + [x];
    assert forall y :: y in next <==> y in current || y == x;
    assert next == order[n + 1 - |next|..n + 1];
    assert forall key :: key in KeySet(access, x) <==> Touches(access, x, key);
  }

  // The groups are the assigned rounds: group g the transactions of round g,
  // nothing lost or moved.
  ghost predicate AreTheRounds(access: Access, order: seq<nat>, groups: seq<seq<nat>>) {
    && Flatten(groups) == order
    && forall g :: 0 <= g < |groups| ==> groups[g] != [] && forall x :: x in groups[g] ==> Round(access, x) == g
  }

  lemma UnsaturatedIsRecovered(access: Access, order: seq<nat>)
    requires Canonical(access, order) && Indices(access, order) && Unsaturated(access)
    ensures AreTheRounds(access, order, Partition(access, order, [], {}))
  {
    assert order[0..] == order && [] + order == order;
    assert order[0..0] == [] && order[..0] == [];
    PartitionLayers(access, order, 0, order, 0, [], {});
    var groups := Partition(access, order, [], {});
    forall g, x | 0 <= g < |groups| && x in groups[g] ensures Round(access, x) == g {
      FlattenHolds(groups, g, x);
      assert x in order;
    }
  }

  // No two transactions listed in a group conflict.
  ghost predicate ConflictFree(access: Access, group: seq<nat>) {
    forall a, b :: 0 <= a < b < |group| ==> !Conflict(access, group[a], group[b])
  }

  lemma {:induction false} GroupsAreConflictFree(access: Access, order: seq<nat>, current: seq<nat>,
      touched: set<Address>)
    requires Indices(access, order) && ConflictFree(access, current)
    requires forall key :: key in touched <==> exists x :: x in current && Touches(access, x, key)
    ensures forall g :: 0 <= g < |Partition(access, order, current, touched)| ==>
      ConflictFree(access, Partition(access, order, current, touched)[g])
    decreases |order|
  {
    if order != [] {
      var x := order[0];
      assert forall key :: key in KeySet(access, x) <==> Touches(access, x, key);
      if Clashes(touched, access[x]) && current != [] {
        GroupsAreConflictFree(access, order[1..], [x], KeySet(access, x));
      } else {
        JoinsConflictFree(access, current, touched, x);
        GroupsAreConflictFree(access, order[1..], current + [x], touched + KeySet(access, x));
      }
    }
  }

  lemma JoinsConflictFree(access: Access, current: seq<nat>, touched: set<Address>, x: nat)
    requires x < |access| && ConflictFree(access, current) && (Clashes(touched, access[x]) ==> current == [])
    requires forall key :: key in touched <==> exists y :: y in current && Touches(access, y, key)
    ensures ConflictFree(access, current + [x])
    ensures forall key :: key in touched + KeySet(access, x) <==> exists y :: y in current + [x] && Touches(access, y, key)
  {
    var next := current + [x];
    forall a, b | 0 <= a < b < |next| ensures !Conflict(access, next[a], next[b]) {
      if b == |current| && Conflict(access, current[a], x) {
        SharedIsTouched(access, current, touched, current[a], x);
      }
    }
    assert forall y :: y in next <==> y in current || y == x;
    assert forall key :: key in KeySet(access, x) <==> Touches(access, x, key);
  }

  lemma {:induction false} GroupOf(groups: seq<seq<nat>>, x: nat) returns (g: nat)
    requires x in Flatten(groups)
    ensures g < |groups| && x in groups[g]
    decreases |groups|
  {
    if x in groups[0] {
      g := 0;
    } else {
      var h := GroupOf(groups[1..], x);
      g := h + 1;
    }
  }

  // Two conflicting transactions at or past the ceiling share their round, and no
  // group can hold both.
  lemma SaturatedIsNotRecovered(access: Access, order: seq<nat>, x: nat)
    requires Canonical(access, order) && Indices(access, order) && x < |access| && Depth(access, x) > U32_MAX
    ensures !AreTheRounds(access, order, Partition(access, order, [], {}))
  {
    var groups := Partition(access, order, [], {});
    if AreTheRounds(access, order, groups) {
      var y := DepthHasCause(access, x);
      assert x in order && y in order;
      var g := GroupOf(groups, x);
      var h := GroupOf(groups, y);
      assert g == U32_MAX == h;
      GroupsAreConflictFree(access, order, [], {});
      var a := IndexOf(groups[g], x);
      var b := IndexOf(groups[g], y);
      assert ConflictFree(access, groups[g]) && Conflict(access, x, y) && a != b;
      assert false;
    }
  }

  // `partition_rounds` on the canonical order recovers exactly the assigned rounds
  // if and only if no conflict depth passes the 32-bit ceiling.
  lemma PartitionRecoversRounds(access: Access, order: seq<nat>)
    requires Canonical(access, order)
    ensures Indices(access, order)
    ensures AreTheRounds(access, order, Partition(access, order, [], {})) <==> Unsaturated(access)
  {
    forall n | 0 <= n < |order| ensures order[n] < |access| {
      assert order[n] in order;
    }
    if Unsaturated(access) {
      UnsaturatedIsRecovered(access, order);
    } else {
      var x :| 0 <= x < |access| && Depth(access, x) > U32_MAX;
      SaturatedIsNotRecovered(access, order, x);
    }
  }

  lemma {:induction false} FlattenHolds(groups: seq<seq<nat>>, g: nat, x: nat)
    requires g < |groups| && x in groups[g]
    ensures x in Flatten(groups)
    decreases g
  {
    if g > 0 {
      FlattenHolds(groups[1..], g - 1, x);
    }
  }

  // Whatever the order, the groups laid end to end are the order.
  lemma {:induction false} PartitionFlattens(access: Access, order: seq<nat>, current: seq<nat>, touched: set<Address>)
    requires Indices(access, order)
    ensures Flatten(Partition(access, order, current, touched)) == current + order
    decreases |order|
  {
    if order == [] {
      assert Flatten([current]) == current + Flatten([]) == current;
      assert current + order == current;
    } else {
      var x, rest := order[0], order[1..];
      if Clashes(touched, access[x]) && current != [] {
        PartitionFlattens(access, rest, [x], KeySet(access, x));
        var groups := Partition(access, rest, [x], KeySet(access, x));
        assert ([current] + groups)[1..] == groups;
        assert current + ([x] + rest) == current + order;
      } else {
        PartitionFlattens(access, rest, current + [x], touched + KeySet(access, x));
        assert current + [x] + rest == current + order;
      }
    }
  }
}
