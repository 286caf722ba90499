// The node: a DAG store, block bodies, an executor kept at the virtual selected
// parent, an index of executed transactions, and a pool.
module Backends {
  import opened Blocks
  import opened Seqs
  import opened Ghostdag
  import opened OrderIndependence
  import opened BlueWorks
  import opened DagStores
  import opened Reorg
  import opened WorldStates
  import opened Execution
  import opened ChainInput
  import opened Executor
  import opened Replays
  import opened ExecutedChains
  import opened ReplayRefinement
  import opened TxIndexes
  import Pool
  import TxPools

  function ExecutedHashes(outcomes: seq<Outcome>): seq<nat> {
    if outcomes == [] then [] else outcomes[0].hashes + ExecutedHashes(outcomes[1..])
  }

  // What is left pending: neither executed nor overtaken by its sender's nonce.
  ghost function StillPending(held: map<nat, Pool.PooledTx>, outcomes: seq<Outcome>, accounts: Accounts): map<nat,
      Pool.PooledTx> {
    TxPools.Live(held - Elems(ExecutedHashes(outcomes)), a => NonceAt(accounts, a))
  }

  function NonceAt(accounts: Accounts, a: Address): nat {
    InfoOf(Get(accounts, a)).nonce
  }

  // Moving to the virtual selected parent never spends the last record for
  // nothing: it has no child, so a different tip always adds a block.
  lemma VirtualTipUnwinds(node: Node, root: Core, st: ExecState, tip: Id)
    requires InStep(node, root, st, tip)
    ensures var newTip := VirtualSelectedParent(node.g);
      var r := ReorgBetween(node.g, st.core.tip, newTip);
      && newTip in node.g.headers
      && (Unwindable(node.g, st, newTip) <==> Met(node.g, st.core.tip, newTip, r) && |r.removed| <= |st.journal|)
  {
    var g := node.g;
    var newTip := VirtualSelectedParent(g);
    VirtualSelectedParentIsLastTip(g);
    InStepShape(node, root, st, tip);
    var above, below, c := ChainsSplit(g, tip, newTip);
    var i, j := WalkFindsSplit(g, tip, newTip, above, below, c, MAX_REORG_WALK);
    WalkCut(g, tip, newTip, above, below, c, i, j);
    if i == |above| && j == |below| && below == [] {
      NothingAbove(g, newTip, below, c);
      NothingAbove(g, tip, above, c);
      ForkHasChild(g, tip, above, c);
      assert above == [];
    }
    ReversedTwice(below[..j]);
  }

  // The block just above a fork names it as a parent.
  lemma {:induction false} ForkHasChild(g: Dag, a: Id, above: seq<Id>, c: Id)
    requires Grounded(g) && a in g.headers && c in g.headers
    requires Linearisation.SelectedChain(g, a) == above + Linearisation.SelectedChain(g, c)
    ensures above != [] ==> !IsTip(g, c)
    decreases |above|
  {
    if above != [] {
      CursorAt(g, a, above, c, |above|);
      AboveHeld(g, a, above, c);
      var child := above[|above| - 1];
      assert above[..|above|] == above;
      assert child in above && child in g.headers;
      GenesisOnce(g, a, above, c);
      assert Placed(g, child);
    }
  }

  // Adding a block makes a later node.
  lemma GrownIsLater(node: Node, h: Header, txs: seq<Tx>)
    requires Consistent(node.g) && AddBlock(node.g, h).Ok?
    ensures Later(node, node.(g := AddBlock(node.g, h).value, bodies := node.bodies[h.hash := txs]))
  {
    AddBlockKeepsConsistent(node.g, h);
  }

  datatype Added = Refused(error: DagError) | Accepted(result: Done<seq<Outcome>>)

  class Backend {
    const dag: DagStore
    const executor: ChainExecutor
    const pool: TxPools.TxPool
    var bodies: Bodies
    var txIndex: TxIndex
    ghost const root: Core

    ghost function NodeView(): Node
      reads this, dag, executor
    {
      Node(executor.params, executor.parallel, dag.View(), bodies)
    }

    ghost predicate Sound()
      reads this, dag, pool
    {
      dag.Valid() && pool.Valid()
    }

    // The executor agrees with a fresh replay of its tip's chain, and the index
    // with the executor.
    ghost predicate InAgreement()
      reads this, dag, executor, executor.state
    {
      && InStep(NodeView(), root, executor.View(), executor.tip)
      && IndexSound(executor.results, txIndex)
      && root.results[0].hashes == []
    }

    constructor (params: Params, genesis: Header, accounts: Accounts, k: nat, limit: nat, config: Pool.Config)
      requires genesis.parents == []
      ensures Sound() && InAgreement()
      ensures NodeView() == Node(params, false, NewDag(genesis, k, limit), map[])
      ensures root == Executor.Genesis(params, accounts, genesis.hash)
      ensures fresh(dag) && fresh(executor) && fresh(executor.state) && fresh(pool)
    {
      dag := new DagStore(genesis, k, limit);
      executor := new ChainExecutor(params, accounts, genesis.hash);
      pool := new TxPools.TxPool(config);
      bodies, txIndex := map[], map[];
      root := Executor.Genesis(params, accounts, genesis.hash);
      new;
      NewExecutorInStep(NodeView(), accounts);
    }

    // `advance`
    method Advance() returns (r: Done<seq<Outcome>>)
      requires Sound()
      modifies this`txIndex, executor, executor.state, pool
      ensures Sound() && executor.parallel == old(executor.parallel)
      ensures (executor.View(), r)
              == old(ReplayRefinement.Advance(NodeView(), executor.View(), VirtualSelectedParent(dag.View())))
      ensures txIndex == old(AdvancedIndex(NodeView(), executor.View(), VirtualSelectedParent(dag.View()), txIndex))
      ensures pool.byHash ==
        if r.Failure? || VirtualSelectedParent(dag.View()) == old(executor.tip) then old(pool.byHash)
        else StillPending(old(pool.byHash), r.value, executor.state.accounts)
    {
      var newTip := dag.SelectedTip();
      var oldTip := executor.tip;
      if newTip == oldTip {
        assert Retained(txIndex, []) == txIndex;
        return Success([]);
      }
      var g := Dag(dag.genesis, dag.k, dag.limit, dag.headers, dag.data);
      var reorg := ComputeReorg(g, oldTip, newTip);
      txIndex := Retained(txIndex, reorg.removed);
      r := executor.Reorganise(g, bodies, reorg.removed, reorg.added);
      if r.Failure? {
        return;
      }
      IndexOutcomes(r.value);
      DropExecuted(r.value);
    }

    method IndexOutcomes(outcomes: seq<Outcome>)
      modifies this`txIndex
      ensures txIndex == IndexAll(old(txIndex), outcomes)
    {
      ghost var goal := IndexAll(txIndex, outcomes);
      for i := 0 to |outcomes|
        invariant goal == IndexAll(txIndex, outcomes[i..])
      {
        assert outcomes[i..][1..] == outcomes[i + 1..];
        var o := outcomes[i];
        ghost var one := IndexBlock(txIndex, o, 0);
        for n := 0 to |o.hashes|
          invariant one == IndexBlock(txIndex, o, n)
        {
          txIndex := txIndex[o.hashes[n] := TxLocation(o.height, o.hash, n)];
        }
      }
      assert outcomes[|outcomes|..] == [];
    }

    // Executed transactions leave the pool, then those whose nonce is spent.
    method DropExecuted(outcomes: seq<Outcome>)
      requires pool.Valid()
      modifies pool
      ensures pool.Valid()
      ensures pool.byHash == StillPending(old(pool.byHash), outcomes, executor.state.accounts)
    {
      var executed := CollectHashes(outcomes);
      ghost var before := pool.View();
      ghost var goal := Pool.RemovedAll(before, executed);
      Pool.RemovedAllKeepsSound(pool.config, before, executed);
      Pool.RemovedAllLeaves(before, executed);
      for i := 0 to |executed|
        invariant goal == Pool.RemovedAll(pool.View(), executed[i..])
      {
        assert executed[i..][1..] == executed[i + 1..];
        var gone := pool.Remove(executed[i]);
      }
      assert executed[|executed|..] == [];
      assert pool.View() == goal;
      var accounts := executor.state.accounts;
      pool.Prune(a => NonceAt(accounts, a));
    }

    method CollectHashes(outcomes: seq<Outcome>) returns (hashes: seq<nat>)
      ensures hashes == ExecutedHashes(outcomes)
    {
      hashes := [];
      for i := 0 to |outcomes|
        invariant ExecutedHashes(outcomes) == hashes + ExecutedHashes(outcomes[i..])
      {
        assert outcomes[i..][1..] == outcomes[i + 1..];
        hashes := hashes + outcomes[i].hashes;
      }
      assert outcomes[|outcomes|..] == [];
      assert hashes + [] == hashes;
    }

    // The executor's core is the replay of the virtual selected parent's chain.
    ghost predicate AtVirtualTip()
      requires dag.Valid()
      reads this, dag, executor, executor.state
    {
      executor.View().core == Replay(StepOf(NodeView()), root, ExecutedChain(dag.View(), VirtualSelectedParent(dag.View())))
    }

    // Advancing succeeds and reaches the virtual selected parent's replay exactly
    // when the reorg can be unwound; node, executor and index then agree.
    method CatchUp() returns (r: Done<seq<Outcome>>)
      requires Sound() && InAgreement()
      modifies this`txIndex, executor, executor.state, pool
      ensures Sound() && executor.parallel == old(executor.parallel)
      ensures old(Unwindable(dag.View(), executor.View(), VirtualSelectedParent(dag.View())))
              <==> r.Success? && AtVirtualTip()
      ensures r.Success? && AtVirtualTip() ==> InAgreement() && executor.tip == VirtualSelectedParent(dag.View())
    {
      ghost var node, st, newTip := NodeView(), executor.View(), VirtualSelectedParent(dag.View());
      VirtualTipUnwinds(node, root, st, executor.tip);
      AdvanceIsReplay(node, root, st, executor.tip, newTip);
      if Unwindable(node.g, st, newTip) {
        AdvanceKeepsIndex(node, root, st, executor.tip, newTip, txIndex);
        InStepShape(node, root, ReplayRefinement.Advance(node, st, newTip).0, newTip);
      }
      r := Advance();
    }

    // `add_block`: a refused block changes nothing; an accepted one leaves the
    // node in agreement at the virtual selected parent exactly when the reorg can
    // be unwound.
    method AddBlock(header: Header, txs: seq<Tx>) returns (r: Added)
      requires Sound() && InAgreement()
      modifies this, dag, executor, executor.state, pool
      ensures Sound()
      ensures match old(Ghostdag.AddBlock(dag.View(), header))
              case Err(e) => r == Refused(e) && NodeView() == old(NodeView()) && executor.View() == old(executor.View())
                             && txIndex == old(txIndex) && pool.View() == old(pool.View())
              case Ok(g) =>
                && r.Accepted?
                && NodeView() == old(NodeView()).(g := g, bodies := old(bodies)[header.hash := txs])
                && (Unwindable(g, old(executor.View()), VirtualSelectedParent(g)) <==> r.result.Success? && AtVirtualTip())
                && (r.result.Success? && AtVirtualTip() ==> InAgreement() && executor.tip == VirtualSelectedParent(g))
    {
      ghost var node := NodeView();
      var added := dag.Add(header);
      if added.Err? {
        return Refused(added.error);
      }
      bodies := bodies[header.hash := txs];
      GrownIsLater(node, header, txs);
      InStepIsStable(node, NodeView(), root, executor.View(), executor.tip);
      var done := CatchUp();
      r := Accepted(done);
    }

    // `receipt`
    method Receipt(key: nat) returns (found: Option<(TxLocation, Execution.Receipt, Outcome)>)
      requires InAgreement()
      ensures found.Some? <==> key in txIndex
      ensures found.Some? ==>
        var (loc, receipt, o) := found.value;
        && loc == txIndex[key] && o.hash == loc.chainBlock
        && loc.chainBlock in ExecutedChain(dag.View(), executor.tip)
        && OwnReceipt(NodeView(), root, ExecutedChain(dag.View(), executor.tip), o, loc, key, receipt)
    {
      ReceiptIsOwn(NodeView(), root, executor.View(), executor.tip, txIndex, key);
      if key !in txIndex {
        return None;
      }
      var location := txIndex[key];
      var outcome := executor.results[location.height];
      found := Some((location, outcome.receipts[location.index], outcome));
    }
  }
}
