// The merge-set ordering rule: conflict layering, the canonical order, and the
// rounds recovered from it.
module Ordering {
  import opened Blocks
  import opened Seqs

  // The access keys of each transaction, in base-sequence order.
  type Access = seq<seq<Address>>

  const U32_MAX: nat := 0xffff_ffff

  function Saturated(n: nat): (r: nat)
    ensures r <= n && r <= U32_MAX
  {
    if n > U32_MAX then U32_MAX else n
  }

  predicate Touches(access: Access, i: nat, key: Address) {
    i < |access| && key in access[i]
  }

  ghost predicate Conflict(access: Access, i: nat, j: nat) {
    exists key :: Touches(access, i, key) && Touches(access, j, key)
  }

  /* ---------- depth in the conflict graph ---------- */

  // One more than the greatest depth of an earlier conflicting transaction.
  ghost function Depth(access: Access, i: nat): nat
    decreases i, i + 1
  {
    DepthOver(access, i, i)
  }

  ghost function DepthOver(access: Access, i: nat, n: nat): nat
    requires n <= i
    decreases i, n
  {
    if n == 0 then 0 else
      var before := DepthOver(access, i, n - 1);
      if Conflict(access, i, n - 1) && Depth(access, n - 1) + 1 > before then Depth(access, n - 1) + 1 else before
  }

  lemma {:induction false} DepthOverBounds(access: Access, i: nat, n: nat)
    requires n <= i
    ensures forall j: nat :: j < n && Conflict(access, i, j) ==> Depth(access, j) < DepthOver(access, i, n)
    ensures DepthOver(access, i, n) == 0 ||
            exists j: nat :: j < n && Conflict(access, i, j) && DepthOver(access, i, n) == Depth(access, j) + 1
    decreases n
  {
    if n > 0 {
      DepthOverBounds(access, i, n - 1);
    }
  }

  // Conflicting transactions lie at strictly increasing depth.
  lemma ConflictDeepens(access: Access, i: nat, j: nat)
    requires i < j && Conflict(access, i, j)
    ensures Depth(access, i) < Depth(access, j)
  {
    DepthOverBounds(access, j, j);
    assert Conflict(access, j, i);
  }

  lemma DepthHasCause(access: Access, i: nat) returns (j: nat)
    requires Depth(access, i) > 0
    ensures j < i && Conflict(access, j, i) && Depth(access, i) == Depth(access, j) + 1
  {
    DepthOverBounds(access, i, i);
    j :| j < i && Conflict(access, i, j) && DepthOver(access, i, i) == Depth(access, j) + 1;
  }

  // Transactions in base order, each conflicting with the next.
  ghost predicate ConflictChain(access: Access, chain: seq<nat>) {
    forall n :: 0 <= n < |chain| - 1 ==> chain[n] < chain[n + 1] && Conflict(access, chain[n], chain[n + 1])
  }

  lemma {:induction false} ChainsFitDepth(access: Access, chain: seq<nat>)
    requires chain != [] && ConflictChain(access, chain)
    ensures |chain| <= Depth(access, chain[|chain| - 1]) + 1
    decreases |chain|
  {
    var n := |chain| - 1;
    if n > 0 {
      assert ConflictChain(access, chain[..n]);
      ChainsFitDepth(access, chain[..n]);
      ConflictDeepens(access, chain[n - 1], chain[n]);
    }
  }

  lemma {:induction false} DepthHasChain(access: Access, i: nat) returns (chain: seq<nat>)
    ensures ConflictChain(access, chain) && |chain| == Depth(access, i) + 1 && chain[|chain| - 1] == i
    decreases i
  {
    if Depth(access, i) == 0 {
      chain := [i];
    } else {
      var j := DepthHasCause(access, i);
      var rest := DepthHasChain(access, j);
      chain := rest + [i];
    }
  }

  // Depth is the length of the longest conflict chain ending at the transaction.
  lemma DepthIsLongestChain(access: Access, i: nat)
    ensures exists chain :: ConflictChain(access, chain) && |chain| == Depth(access, i) + 1 && chain[|chain| - 1] == i
    ensures forall chain :: chain != [] && ConflictChain(access, chain) && chain[|chain| - 1] == i ==> |chain| <= Depth(access, i) + 1
  {
    var longest := DepthHasChain(access, i);
    forall chain: seq<nat> | chain != [] && ConflictChain(access, chain) && chain[|chain| - 1] == i
      ensures |chain| <= Depth(access, i) + 1
    {
      ChainsFitDepth(access, chain);
    }
  }

  // A layering that puts conflicting transactions in increasing layers.
  ghost predicate ValidLayering(access: Access, layer: seq<nat>) {
    |layer| == |access| && forall i, j :: 0 <= i < j < |access| && Conflict(access, i, j) ==> layer[i] < layer[j]
  }

  // Depth is the pointwise least valid layering.
  lemma {:induction false} DepthIsLeast(access: Access, layer: seq<nat>, i: nat)
    requires ValidLayering(access, layer) && i < |access|
    ensures Depth(access, i) <= layer[i]
    decreases i
  {
    if Depth(access, i) > 0 {
      var j := DepthHasCause(access, i);
      DepthIsLeast(access, layer, j);
    }
  }

  /* ---------- what the pass over the transactions computes ---------- */

  // One more than the greatest depth among the first `n` that touch `key`.
  ghost function TouchDepth(access: Access, key: Address, n: nat): nat {
    if n == 0 then 0
    else if Touches(access, n - 1, key) then Depth(access, n - 1) + 1
    else TouchDepth(access, key, n - 1)
  }

  ghost function MaxTouch(access: Access, keys: seq<Address>, n: nat): nat {
    if keys == [] then 0 else
      var rest := MaxTouch(access, keys[..|keys| - 1], n);
      var last := TouchDepth(access, keys[|keys| - 1], n);
      if last > rest then last else rest
  }

  // The latest toucher of a key is its deepest.
  lemma {:induction false} LatestIsDeepest(access: Access, key: Address, n: nat)
    ensures forall j: nat :: j < n && Touches(access, j, key) ==> Depth(access, j) < TouchDepth(access, key, n)
    ensures TouchDepth(access, key, n) == 0 ||
            exists j: nat :: j < n && Touches(access, j, key) && TouchDepth(access, key, n) == Depth(access, j) + 1
    decreases n
  {
    if n > 0 {
      LatestIsDeepest(access, key, n - 1);
      if Touches(access, n - 1, key) {
        forall j: nat | j < n - 1 && Touches(access, j, key) ensures Depth(access, j) < Depth(access, n - 1) {
          ConflictDeepens(access, j, n - 1);
        }
      }
    }
  }

  lemma {:induction false} MaxTouchBounds(access: Access, keys: seq<Address>, n: nat)
    ensures forall key :: key in keys ==> TouchDepth(access, key, n) <= MaxTouch(access, keys, n)
    ensures MaxTouch(access, keys, n) == 0 ||
            exists key :: key in keys && TouchDepth(access, key, n) == MaxTouch(access, keys, n)
    decreases |keys|
  {
    if keys != [] {
      var m := |keys| - 1;
      MaxTouchBounds(access, keys[..m], n);
      assert forall key :: key in keys <==> key in keys[..m] || key == keys[m];
    }
  }

  lemma MaxTouchIsDepth(access: Access, i: nat)
    requires i < |access|
    ensures MaxTouch(access, access[i], i) == Depth(access, i)
  {
    MaxTouchBounds(access, access[i], i);
    DepthOverBounds(access, i, i);
    var m := MaxTouch(access, access[i], i);
    if m > 0 {
      var key :| key in access[i] && TouchDepth(access, key, i) == m;
      LatestIsDeepest(access, key, i);
      var j: nat :| j < i && Touches(access, j, key) && m == Depth(access, j) + 1;
      assert Touches(access, i, key);
      assert Conflict(access, i, j);
    }
    if Depth(access, i) > 0 {
      var j := DepthHasCause(access, i);
      var key :| Touches(access, j, key) && Touches(access, i, key);
      LatestIsDeepest(access, key, i);
    }
  }

  ghost predicate TouchMap(access: Access, n: nat, lastTouch: map<Address, nat>) {
    forall key ::
      && (key in lastTouch <==> TouchDepth(access, key, n) > 0)
      && (key in lastTouch ==> lastTouch[key] == Saturated(TouchDepth(access, key, n) - 1))
  }

  // `rounds`: each transaction's round is its depth, saturated at 32 bits.
  method Rounds(access: Access) returns (rounds: seq<nat>)
    ensures |rounds| == |access|
    ensures forall i :: 0 <= i < |access| ==> rounds[i] == Saturated(Depth(access, i))
  {
    var lastTouch: map<Address, nat> := map[];
    rounds := [];
    for n := 0 to |access|
      invariant |rounds| == n && TouchMap(access, n, lastTouch)
      invariant forall i :: 0 <= i < n ==> rounds[i] == Saturated(Depth(access, i))
    {
      var round := RoundOf(access, n, lastTouch);
      lastTouch := Touch(access, n, lastTouch, round);
      rounds := rounds + [round];
    }
  }

  method RoundOf(access: Access, n: nat, lastTouch: map<Address, nat>) returns (round: nat)
    requires n < |access| && TouchMap(access, n, lastTouch)
    ensures round == Saturated(Depth(access, n))
  {
    var keys := access[n];
    round := 0;
    for m := 0 to |keys|
      invariant round == Saturated(MaxTouch(access, keys[..m], n))
    {
      assert keys[..m + 1][..m] == keys[..m];
      if keys[m] in lastTouch {
        var next := Saturated(lastTouch[keys[m]] + 1);
        if next > round {
          round := next;
        }
      }
    }
    assert keys[..|keys|] == keys;
    MaxTouchIsDepth(access, n);
  }

  method Touch(access: Access, n: nat, lastTouch0: map<Address, nat>, round: nat) returns (lastTouch: map<Address, nat>)
    requires n < |access| && TouchMap(access, n, lastTouch0) && round == Saturated(Depth(access, n))
    ensures TouchMap(access, n + 1, lastTouch)
  {
    var keys := access[n];
    lastTouch := lastTouch0;
    for m := 0 to |keys|
      invariant forall key ::
        && (key in lastTouch <==> key in keys[..m] || key in lastTouch0)
        && (key in keys[..m] ==> lastTouch[key] == round)
        && (key in lastTouch0 && key !in keys[..m] ==> lastTouch[key] == lastTouch0[key])
    {
      assert keys[..m + 1] == keys[..m] + [keys[m]];
      lastTouch := lastTouch[keys[m] := round];
    }
    assert keys[..|keys|] == keys;
    assert forall key :: Touches(access, n, key) <==> key in keys;
  }

  /* ---------- the canonical order ---------- */

  ghost function Round(access: Access, i: nat): nat {
    Saturated(Depth(access, i))
  }

  ghost predicate Earlier(access: Access, i: nat, j: nat) {
    Round(access, i) < Round(access, j) || (Round(access, i) == Round(access, j) && i < j)
  }

  // The first `n` indices once each, by round and then by base position.
  ghost predicate OrderedUpTo(access: Access, order: seq<nat>, n: nat) {
    && |order| == n
    && (forall x :: x in order <==> 0 <= x < n)
    && forall a, b :: 0 <= a < b < |order| ==> Earlier(access, order[a], order[b])
  }

  ghost predicate Canonical(access: Access, order: seq<nat>) {
    OrderedUpTo(access, order, |access|)
  }

  lemma InsertBetween(access: Access, order: seq<nat>, n: nat, p: nat)
    requires OrderedUpTo(access, order, n) && p <= |order|
    requires forall a :: 0 <= a < p ==> Earlier(access, order[a], n)
    requires forall a :: p <= a < |order| ==> Earlier(access, n, order[a])
    ensures OrderedUpTo(access, order[..p] + [n] + order[p..], n + 1)
  {
    var r := order[..p] + [n] + order[p..];
    assert order == order[..p] + order[p..];
    assert forall x :: x in r <==> x == n || x in order;
  }

  // Inserting the next index after every index of its own round or an earlier one.
  lemma InsertKeepsOrdered(access: Access, order: seq<nat>, n: nat, p: nat)
    requires OrderedUpTo(access, order, n) && p <= |order|
    requires p > 0 ==> Round(access, order[p - 1]) <= Round(access, n)
    requires forall a :: p <= a < |order| ==> Round(access, n) < Round(access, order[a])
    ensures OrderedUpTo(access, order[..p] + [n] + order[p..], n + 1)
  {
    forall a | 0 <= a < p ensures Earlier(access, order[a], n) {
      assert order[a] in order;
      assert a < p - 1 ==> Earlier(access, order[a], order[p - 1]);
    }
    InsertBetween(access, order, n, p);
  }

  // `layer_and_sort`
  method LayerAndSort(access: Access) returns (order: seq<nat>)
    ensures Canonical(access, order)
  {
    var rounds := Rounds(access);
    order := [];
    for i := 0 to |access|
      invariant OrderedUpTo(access, order, i)
    {
      assert forall a :: 0 <= a < |order| ==> order[a] in order;
      var p := |order|;
      while p > 0 && rounds[order[p - 1]] > rounds[i]
        invariant 0 <= p <= |order|
        invariant forall a :: p <= a < |order| ==> Round(access, i) < Round(access, order[a])
      {
        p := p - 1;
      }
      InsertKeepsOrdered(access, order, i, p);
      order := order[..p] + [i] + order[p..];
    }
  }

  // The canonical order as a function: each index after the rounds up to its own.
  ghost function InsertionPoint(access: Access, order: seq<nat>, n: nat): (p: nat)
    ensures p <= |order|
    ensures forall a :: p <= a < |order| ==> Round(access, n) < Round(access, order[a])
    ensures p > 0 ==> Round(access, order[p - 1]) <= Round(access, n)
  {
    if order == [] || Round(access, order[|order| - 1]) <= Round(access, n) then |order|
    else InsertionPoint(access, order[..|order| - 1], n)
  }

  ghost function OrderOf(access: Access, n: nat): (order: seq<nat>)
    requires n <= |access|
    ensures OrderedUpTo(access, order, n)
  {
    if n == 0 then [] else
      var order := OrderOf(access, n - 1);
      var p := InsertionPoint(access, order, n - 1);
      InsertKeepsOrdered(access, order, n - 1, p);
      order[..p] + [n - 1] + order[p..]
  }

  ghost function CanonicalOrder(access: Access): (order: seq<nat>)
    ensures Canonical(access, order)
  {
    OrderOf(access, |access|)
  }

  lemma CanonicalIsTheOrder(access: Access, order: seq<nat>)
    requires Canonical(access, order)
    ensures order == CanonicalOrder(access)
  {
    var other := CanonicalOrder(access);
    CanonicalIsUnique(access, order, other, |order|);
    assert order[..|order|] == order && other[..|order|] == other;
  }

  // There is one canonical order.
  lemma {:induction false} CanonicalIsUnique(access: Access, order: seq<nat>, order': seq<nat>, n: nat)
    requires Canonical(access, order) && Canonical(access, order') && n <= |order|
    ensures order[..n] == order'[..n]
    decreases n
  {
    if n > 0 {
      CanonicalIsUnique(access, order, order', n - 1);
      SameNext(access, order, order', n - 1);
    }
  }

  lemma SameNext(access: Access, order: seq<nat>, order': seq<nat>, n: nat)
    requires Canonical(access, order) && Canonical(access, order') && n < |order| && order[..n] == order'[..n]
    ensures order[n] == order'[n]
  {
    assert order[n] in order && order'[n] in order';
    var a := IndexOf(order', order[n]);
    var b := IndexOf(order, order'[n]);
    SamePrefix(order, order', n, a);
    SamePrefix(order, order', n, b);
  }

  // Conflicting transactions never swap, saturated or not.
  lemma ConflictsKeepOrder(access: Access, order: seq<nat>, n: nat, m: nat)
    requires Canonical(access, order) && n < m < |order| && Conflict(access, order[n], order[m])
    ensures order[n] < order[m]
  {
    assert Earlier(access, order[n], order[m]);
    if order[m] < order[n] {
      ConflictDeepens(access, order[m], order[n]);
    }
  }

  // Two conflicting transactions share a round exactly when both depths saturate.
  lemma RoundsAreDisjoint(access: Access, i: nat, j: nat)
    requires i < j && Conflict(access, i, j)
    ensures Round(access, i) == Round(access, j) <==> Depth(access, i) >= U32_MAX
  {
    ConflictDeepens(access, i, j);
  }
}
