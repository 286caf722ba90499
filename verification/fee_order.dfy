// Fees are the one thing the declared keys do not cover: where layering turns
// round a pair one of which pays into a key of the other, the order shows.
module FeeOrder {
  import opened Blocks
  import opened Seqs
  import opened WorldStates
  import opened Execution
  import opened Ordering
  import opened Reordering

  // An EVM in which the payer uses one unit of gas and the watcher succeeds when
  // an account is without funds; nothing else is executable.
  function Watching(payer: Tx, watcher: Tx, account: Address): Evm {
    (s: Accounts, ctx: BlockCtx, miner: Address, tx: Tx) =>
      if tx == payer then Some(Effect(true, 1, 0, map[], {}))
      else if tx == watcher then Some(Effect(InfoOf(Get(s, account)).balance == 0, 0, 0, map[], {account}))
      else None
  }

  // The EVM in which transaction `y` watches the account transaction `x` pays.
  function PairEvm(tagged: Tagged, x: nat, y: nat): Evm
    requires x < |tagged| && y < |tagged|
  {
    Watching(tagged[x].1, tagged[y].1, tagged[x].0)
  }

  lemma PairIsConfined(ctx: BlockCtx, tagged: Tagged, access: Access, x: nat, y: nat)
    requires Deduped(tagged) && |access| == |tagged| && x < |tagged| && y < |tagged| && x != y
    requires FeeReaches(ctx, tagged, access, x, y)
    ensures Framed(PairEvm(tagged, x, y)) && GasBounded(PairEvm(tagged, x, y))
    ensures AllDeclared(ProperRunner(PairEvm(tagged, x, y), ctx, tagged), access)
  {
    var evm, account := PairEvm(tagged, x, y), tagged[x].0;
    forall s, s', c, miner, tx | evm(s, c, miner, tx).Some? && SameOn(s, s', evm(s, c, miner, tx).value.readSet)
      ensures evm(s', c, miner, tx) == evm(s, c, miner, tx)
    {
      assert tx == tagged[y].1 && tx != tagged[x].1 ==> account in evm(s, c, miner, tx).value.readSet;
    }
    forall i | 0 <= i < |access| ensures Declared(ProperRunner(evm, ctx, tagged), access[i], i) {
      var run := ProperRunner(evm, ctx, tagged);
      forall s, s' | SameOn(s, s', Elems(access[i])) ensures run(s', i) == run(s, i) {
        assert i == y ==> account in Elems(access[i]);
        assert i != y ==> tagged[i].1 != tagged[y].1;
      }
    }
  }

  // The payer's fee is there once it has run.
  lemma PayerFunds(ctx: BlockCtx, limit: nat, p: Progress, tagged: Tagged, x: nat, y: nat)
    requires x < |tagged| && y < |tagged| && Tip(ctx, tagged[x].1) > 0 && !OverBudget(p.block, tagged[x].1, limit)
    ensures InfoOf(Get(Step(PairEvm(tagged, x, y), ctx, limit, p, tagged[x].0, tagged[x].1).accounts, tagged[x].0)).balance > 0
  {
    var t := Transact(PairEvm(tagged, x, y), p.accounts, ctx, tagged[x].0, tagged[x].1).value;
    CommittedAt(p.accounts, t.changes, tagged[x].0);
    assert Fee(Tip(ctx, tagged[x].1), 1) == Tip(ctx, tagged[x].1) + Fee(Tip(ctx, tagged[x].1), 0);
  }

  // The watcher succeeds exactly if the account had no funds and the payer has
  // not run before it.
  lemma {:induction false} WatcherSees(ctx: BlockCtx, limit: nat, p: Progress, tagged: Tagged, x: nat, y: nat,
      order: seq<nat>, n: nat)
    requires Deduped(tagged) && x < |tagged| && y < |tagged| && x != y && Tip(ctx, tagged[x].1) > 0
    requires tagged[x].1.gasLimit > 0
    requires Positions(tagged, order) && Distinct(order) && n < |order| && order[n] == y
    requires p.block.gasUsed + DeclaredGas(tagged, order) <= limit <= U64_MAX
    ensures var deeds := Deeds(PairEvm(tagged, x, y), ctx, limit, p, tagged, order);
      y in deeds && deeds[y] == Some(Did(InfoOf(Get(p.accounts, tagged[x].0)).balance == 0 && x !in order[..n], 0, 0))
    decreases |order|
  {
    var evm := PairEvm(tagged, x, y);
    var (miner, tx) := tagged[order[0]];
    var next := Step(evm, ctx, limit, p, miner, tx);
    assert order == [order[0]] + order[1..];
    if n == 0 {
      assert tagged[y].1 != tagged[x].1;
    } else {
      assert order[0] != y && tagged[order[0]].1 != tagged[y].1;
      assert order[..n] == [order[0]] + order[1..][..n - 1];
      assert next.block.gasUsed <= p.block.gasUsed + tx.gasLimit;
      if order[0] == x {
        PayerFunds(ctx, limit, p, tagged, x, y);
      } else {
        assert tagged[order[0]].1 != tagged[x].1;
        assert next == Defer(p);
      }
      WatcherSees(ctx, limit, next, tagged, x, y, order[1..], n - 1);
    }
  }

  // The watcher does otherwise in an order that turns the pair round.
  lemma TurnedPairShows(ctx: BlockCtx, limit: nat, p: Progress, tagged: Tagged, x: nat, y: nat, order: seq<nat>,
      order': seq<nat>, n: nat, m: nat)
    requires Deduped(tagged) && x < |tagged| && y < |tagged| && x != y && Tip(ctx, tagged[x].1) > 0
    requires tagged[x].1.gasLimit > 0
    requires Positions(tagged, order) && Distinct(order) && n < |order| && order[n] == y && x in order[..n]
    requires Positions(tagged, order') && Distinct(order') && m < |order'| && order'[m] == y && x !in order'[..m]
    requires p.block.gasUsed + DeclaredGas(tagged, order) <= limit <= U64_MAX
    requires DeclaredGas(tagged, order) == DeclaredGas(tagged, order')
    requires InfoOf(Get(p.accounts, tagged[x].0)).balance == 0
    ensures Deeds(PairEvm(tagged, x, y), ctx, limit, p, tagged, order) != Deeds(PairEvm(tagged, x, y), ctx, limit, p, tagged, order')
  {
    WatcherSees(ctx, limit, p, tagged, x, y, order, n);
    WatcherSees(ctx, limit, p, tagged, x, y, order', m);
  }

  // The canonical order lists `y` before `x`, the base sequence after it.
  lemma TurnedRound(access: Access, order: seq<nat>, x: nat, y: nat) returns (n: nat, m: nat)
    requires Canonical(access, order) && x < y < |access| && Round(access, y) < Round(access, x)
    ensures n < m < |order| && order[n] == y && order[m] == x
    ensures x !in order[..n] && y in order[..m] && y !in Base(|access|)[..x] && x in Base(|access|)[..y]
  {
    n := IndexOf(order, y);
    m := IndexOf(order, x);
    assert m < n ==> Earlier(access, order[m], order[n]);
    CanonicalLists(access, order);
    assert order[..m][n] == y && Base(|access|)[..y][x] == x;
    assert forall i :: 0 <= i < n ==> order[..n][i] == order[i] && order[i] != order[m];
    assert forall i :: 0 <= i < x ==> Base(|access|)[..x][i] == i;
  }

  // The converse of `RoomyBlockIsBaseSequence`: where some fee of a pair that
  // layering turns round reaches a key of the other, there is an EVM in which every
  // transaction keeps to its keys and its gas, and one of the pair does otherwise
  // in layered order.
  lemma FeesOutOfOrderShow(ctx: BlockCtx, limit: nat, tagged: Tagged, access: Access,
      order: seq<nat>) returns (evm: Evm)
    requires |access| == |tagged| && Canonical(access, order) && Deduped(tagged)
    requires DeclaredGas(tagged, Base(|tagged|)) <= limit <= U64_MAX
    requires !FeesApart(ctx, tagged, access)
    ensures Framed(evm) && GasBounded(evm) && AllDeclared(ProperRunner(evm, ctx, tagged), access)
    ensures Positions(tagged, order)
    ensures Deeds(evm, ctx, limit, Progress(map[], EMPTY_BLOCK), tagged, order)
            != Deeds(evm, ctx, limit, Progress(map[], EMPTY_BLOCK), tagged, Base(|tagged|))
  {
    var p := Progress(map[], EMPTY_BLOCK);
    CanonicalLists(access, order);
    SameDeclaredGas(tagged, order, |access|);
    var x, y :| 0 <= x < y < |access| && Round(access, y) < Round(access, x)
                && (FeeReaches(ctx, tagged, access, x, y) || FeeReaches(ctx, tagged, access, y, x));
    var n, m := TurnedRound(access, order, x, y);
    if FeeReaches(ctx, tagged, access, x, y) {
      evm := PairEvm(tagged, x, y);
      PairIsConfined(ctx, tagged, access, x, y);
      TurnedPairShows(ctx, limit, p, tagged, x, y, Base(|tagged|), order, y, n);
    } else {
      evm := PairEvm(tagged, y, x);
      PairIsConfined(ctx, tagged, access, y, x);
      TurnedPairShows(ctx, limit, p, tagged, y, x, order, Base(|tagged|), m, x);
    }
  }

  // Such blocks there are: the second of three transactions waits a round for the
  // first and its miner sends the third.
  lemma FeesCanReach(ctx: BlockCtx, access: Access, first: Tx, second: Tx, third: Tx)
    requires access == [[1], [1], [7]] && Tip(ctx, second) > 0 && second.gasLimit > 0
    ensures !FeesApart(ctx, [(5, first), (7, second), (5, third)], access)
  {
    assert Touches(access, 0, 1) && Touches(access, 1, 1) && Touches(access, 2, 7);
    ConflictDeepens(access, 0, 1);
    if Depth(access, 2) > 0 {
      var j := DepthHasCause(access, 2);
    }
    assert Round(access, 2) < Round(access, 1);
  }
}
