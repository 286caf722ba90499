// Where transactions executed: the index kept across reorgs, and what a receipt
// lookup through it returns.
module TxIndexes {
  import opened Blocks
  import opened Seqs
  import opened Ghostdag
  import opened BlueWorks
  import opened Reorg
  import opened Execution
  import opened Linearisation
  import opened ChainInput
  import opened Executor
  import opened Replays
  import opened ExecutedChains
  import opened ReplayRefinement

  datatype TxLocation = TxLocation(height: nat, chainBlock: Id, index: nat)

  type TxIndex = map<nat, TxLocation>

  // Entries of blocks leaving the chain are dropped.
  function Retained(ix: TxIndex, removed: seq<Id>): TxIndex {
    map key | key in ix && ix[key].chainBlock !in removed :: ix[key]
  }

  function IndexBlock(ix: TxIndex, o: Outcome, n: nat): TxIndex
    decreases |o.hashes| - n
  {
    if n >= |o.hashes| then ix
    else IndexBlock(ix[o.hashes[n] := TxLocation(o.height, o.hash, n)], o, n + 1)
  }

  function IndexAll(ix: TxIndex, outcomes: seq<Outcome>): TxIndex
    decreases |outcomes|
  {
    if outcomes == [] then ix else IndexAll(IndexBlock(ix, outcomes[0], 0), outcomes[1..])
  }

  // The entry names an executed chain block that lists the key at the index.
  ghost predicate Located(results: Results, key: nat, loc: TxLocation) {
    && 1 <= loc.height && loc.height in results
    && results[loc.height].hash == loc.chainBlock && results[loc.height].height == loc.height
    && loc.index < |results[loc.height].hashes| && results[loc.height].hashes[loc.index] == key
  }

  ghost predicate IndexSound(results: Results, ix: TxIndex) {
    forall key {:trigger Located(results, key, ix[key])} :: key in ix ==> Located(results, key, ix[key])
  }

  ghost predicate Listed(results: Results, o: Outcome) {
    1 <= o.height && o.height in results && results[o.height] == o
  }

  lemma {:induction false} IndexBlockSound(results: Results, ix: TxIndex, o: Outcome, n: nat)
    requires IndexSound(results, ix) && Listed(results, o)
    ensures IndexSound(results, IndexBlock(ix, o, n)) && ix.Keys <= IndexBlock(ix, o, n).Keys
    ensures forall i :: n <= i < |o.hashes| ==> o.hashes[i] in IndexBlock(ix, o, n)
    decreases |o.hashes| - n
  {
    if n < |o.hashes| {
      var loc := TxLocation(o.height, o.hash, n);
      var next := ix[o.hashes[n] := loc];
      assert Located(results, o.hashes[n], loc);
      forall key | key in next ensures Located(results, key, next[key]) {
        assert key != o.hashes[n] ==> Located(results, key, ix[key]);
      }
      IndexBlockSound(results, next, o, n + 1);
    }
  }

  lemma {:induction false} IndexAllSound(results: Results, ix: TxIndex, outcomes: seq<Outcome>)
    requires IndexSound(results, ix) && forall i :: 0 <= i < |outcomes| ==> Listed(results, outcomes[i])
    ensures IndexSound(results, IndexAll(ix, outcomes)) && ix.Keys <= IndexAll(ix, outcomes).Keys
    ensures forall i, x :: 0 <= i < |outcomes| && x in outcomes[i].hashes ==> x in IndexAll(ix, outcomes)
    decreases |outcomes|
  {
    if outcomes != [] {
      assert Listed(results, outcomes[0]);
      IndexBlockSound(results, ix, outcomes[0], 0);
      forall i | 0 <= i < |outcomes[1..]| ensures Listed(results, outcomes[1..][i]) {
        assert Listed(results, outcomes[i + 1]);
      }
      IndexAllSound(results, IndexBlock(ix, outcomes[0], 0), outcomes[1..]);
      forall i, x | 0 <= i < |outcomes| && x in outcomes[i].hashes ensures x in IndexAll(ix, outcomes) {
        assert i > 0 ==> outcomes[i] == outcomes[1..][i - 1];
      }
    }
  }

  /* ---------- across a reorg ---------- */

  // What a reorg keeps, removes and adds, and that it reports what it files.
  ghost predicate Moved(before: Results, after: Results, kept: seq<Id>, removed: seq<Id>, outcomes: seq<Outcome>) {
    && (forall h :: h in before ==> 0 <= h <= |kept| + |removed|)
    && (forall h :: 0 <= h <= |kept| ==> h in before && h in after && after[h] == before[h])
    && (forall h :: |kept| < h <= |kept| + |removed| ==> h in before && before[h].hash in removed)
    && (forall h :: h in after <==> 0 <= h <= |kept| + |outcomes|)
    && forall i :: 0 <= i < |outcomes| ==> Listed(after, outcomes[i]) && outcomes[i].height == |kept| + i + 1
  }

  lemma RetainedSound(before: Results, after: Results, kept: seq<Id>, removed: seq<Id>, outcomes: seq<Outcome>,
      ix: TxIndex)
    requires Moved(before, after, kept, removed, outcomes) && IndexSound(before, ix)
    ensures IndexSound(after, Retained(ix, removed))
  {
    var left := Retained(ix, removed);
    forall key | key in left ensures Located(after, key, left[key]) {
      assert Located(before, key, ix[key]);
      assert ix[key].height <= |kept|;
    }
  }

  // Every entry names a currently executed chain block whose transaction at that
  // index is the key, after a reorg as before it.
  lemma IndexFollowsReorg(before: Results, after: Results, kept: seq<Id>, removed: seq<Id>, outcomes: seq<Outcome>,
      ix: TxIndex)
    requires Moved(before, after, kept, removed, outcomes) && IndexSound(before, ix)
    ensures IndexSound(after, IndexAll(Retained(ix, removed), outcomes))
  {
    RetainedSound(before, after, kept, removed, outcomes, ix);
    IndexAllSound(after, Retained(ix, removed), outcomes);
  }

  // Every executed transaction has an entry.
  ghost predicate IndexComplete(results: Results, ix: TxIndex) {
    forall h, x :: h in results && x in results[h].hashes ==> x in ix
  }

  // No transaction executed in two of the chain's blocks.
  ghost predicate ExecutedOnce(results: Results) {
    forall h, h', x :: h in results && h' in results && x in results[h].hashes && x in results[h'].hashes ==> h == h'
  }

  lemma CompletenessFollowsReorg(before: Results, after: Results, kept: seq<Id>, removed: seq<Id>,
      outcomes: seq<Outcome>, ix: TxIndex)
    requires Moved(before, after, kept, removed, outcomes) && IndexSound(before, ix)
    requires ExecutedOnce(before) && IndexComplete(before, ix)
    requires forall h :: 1 <= h <= |kept| ==> before[h].hash !in removed
    requires before[0].hashes == []
    ensures IndexComplete(after, IndexAll(Retained(ix, removed), outcomes))
  {
    RetainedSound(before, after, kept, removed, outcomes, ix);
    IndexAllSound(after, Retained(ix, removed), outcomes);
    forall h, x | h in after && x in after[h].hashes ensures x in IndexAll(Retained(ix, removed), outcomes) {
      if h > |kept| {
        assert Listed(after, outcomes[h - |kept| - 1]);
      } else {
        assert x in ix && Located(before, x, ix[x]);
        assert x in before[ix[x].height].hashes;
        assert x in Retained(ix, removed);
      }
    }
  }

  lemma MovedBetween(node: Node, root: Core, st: ExecState, tip: Id, next: ExecState, kept: seq<Id>, removed: seq<Id>,
      added: seq<Id>, outcomes: seq<Outcome>)
    requires InStep(node, root, st, tip) && ExecutedChain(node.g, tip) == kept + Reversed(removed)
    requires Known(node.g.headers.Keys, added) && |outcomes| == |added|
    requires next.core == Replay(StepOf(node), root, kept + added) && Reported(next.core, |kept|, outcomes)
    ensures Moved(st.core.results, next.core.results, kept, removed, outcomes)
  {
    var step, known := StepOf(node), node.g.headers.Keys;
    var before, after := st.core.results, next.core.results;
    InStepShape(node, root, st, tip);
    ReversedTwice(removed);
    ReversedElems(removed);
    var chain := kept + Reversed(removed);
    assert forall x :: x in kept ==> x in chain;
    assert forall x :: x in Reversed(removed) ==> x in chain;
    ReplayKeepsPrefix(step, known, root, kept, Reversed(removed));
    ReplayKeepsPrefix(step, known, root, kept, added);
    ReplayShape(step, known, root, chain);
    ReplayShape(step, known, root, kept + added);
    forall h | |kept| < h <= |chain| ensures h in before && before[h].hash in removed {
      assert before[h].hash == chain[h - 1] && chain[h - 1] == Reversed(removed)[h - 1 - |kept|];
    }
    forall i | 0 <= i < |outcomes| ensures Listed(after, outcomes[i]) && outcomes[i].height == |kept| + i + 1 {
      assert outcomes[i] == after[|kept| + i + 1];
    }
  }

  // A reorg that can be unwound moves the results as the index assumes.
  lemma AdvanceMoves(node: Node, root: Core, st: ExecState, tip: Id, newTip: Id) returns (kept: seq<Id>)
    requires InStep(node, root, st, tip) && newTip in node.g.headers && st.core.tip == tip
    requires Unwindable(node.g, st, newTip)
    ensures var r := Advance(node, st, newTip);
      && r.1.Success?
      && Moved(st.core.results, r.0.core.results, kept, ReorgBetween(node.g, tip, newTip).removed, r.1.value)
      && ExecutedChain(node.g, tip) == kept + Reversed(ReorgBetween(node.g, tip, newTip).removed)
  {
    var g := node.g;
    var above, below, c := ChainsSplit(g, tip, newTip);
    var i, j := WalkFindsSplit(g, tip, newTip, above, below, c, MAX_REORG_WALK);
    WalkCut(g, tip, newTip, above, below, c, i, j);
    kept := ExecutedChain(g, c) + Reversed(above[i..]);
    var removed, added := above[..i], Reversed(below[..j]);
    ApplyFollows(node, root, st, tip, kept, removed, added);
    AdvanceIsReplay(node, root, st, tip, newTip);
    var r := Advance(node, st, newTip);
    MovedBetween(node, root, st, tip, r.0, kept, removed, added, r.1.value);
  }

  // The index after a successful advance.
  ghost function AdvancedIndex(node: Node, st: ExecState, newTip: Id, ix: TxIndex): TxIndex {
    var r := Advance(node, st, newTip);
    var left := Retained(ix, ReorgBetween(node.g, st.core.tip, newTip).removed);
    if r.1.Success? then IndexAll(left, r.1.value) else left
  }

  // Receipt lookup, every advance: the index stays sound, and stays complete as
  // long as no transaction executed twice on the chain left behind.
  lemma AdvanceKeepsIndex(node: Node, root: Core, st: ExecState, tip: Id, newTip: Id, ix: TxIndex)
    requires InStep(node, root, st, tip) && newTip in node.g.headers && root.results[0].hashes == []
    requires st.core.tip == tip && Unwindable(node.g, st, newTip) && IndexSound(st.core.results, ix)
    ensures var next := Advance(node, st, newTip).0.core.results;
      && IndexSound(next, AdvancedIndex(node, st, newTip, ix))
      && (IndexComplete(st.core.results, ix) && ExecutedOnce(st.core.results) ==> IndexComplete(next, AdvancedIndex(node, st, newTip, ix)))
  {
    var kept := AdvanceMoves(node, root, st, tip, newTip);
    var r := Advance(node, st, newTip);
    var removed := ReorgBetween(node.g, tip, newTip).removed;
    IndexFollowsReorg(st.core.results, r.0.core.results, kept, removed, r.1.value, ix);
    if IndexComplete(st.core.results, ix) && ExecutedOnce(st.core.results) {
      KeptIsNotRemoved(node, root, st, tip, kept, removed);
      CompletenessFollowsReorg(st.core.results, r.0.core.results, kept, removed, r.1.value, ix);
    }
  }

  lemma KeptIsNotRemoved(node: Node, root: Core, st: ExecState, tip: Id, kept: seq<Id>, removed: seq<Id>)
    requires InStep(node, root, st, tip) && ExecutedChain(node.g, tip) == kept + Reversed(removed)
    ensures forall h :: 1 <= h <= |kept| ==> h in st.core.results && st.core.results[h].hash !in removed
    ensures 0 in st.core.results && st.core.results[0] == root.results[0]
  {
    InStepShape(node, root, st, tip);
    ReversedElems(removed);
    var chain := ExecutedChain(node.g, tip);
    ReplayShape(StepOf(node), node.g.headers.Keys, root, chain);
    ExecutedChainDistinct(node.g, tip);
    DistinctHalves(kept, Reversed(removed));
    forall h | 1 <= h <= |kept| ensures h in st.core.results && st.core.results[h].hash !in removed {
      assert chain[h - 1] == kept[h - 1] && kept[h - 1] in kept;
    }
  }

  /* ---------- what a receipt says ---------- */

  // An outcome's record, as an execution leaves it.
  function RecordOf(o: Outcome): Progress {
    Progress(map[], ExecutedBlock(map[], o.gasUsed, o.executed, o.deferred, o.receipts, o.hashes))
  }

  // What a chain block executes on top of a core.
  ghost function TraceOf(node: Node, core: Core, b: Id): Trace {
    ExecutedTrace(node.params, node.parallel, core.accounts, ContextFor(node.params, core, HeaderOf(node.g, b)),
                  InputOf(node.g, node.bodies, b))
  }

  // What the chain's block at height `n + 1` executes, on the replay below it.
  ghost function TraceAt(node: Node, root: Core, chain: seq<Id>, n: nat): Trace
    requires n < |chain|
  {
    TraceOf(node, Replay(StepOf(node), root, chain[..n]), chain[n])
  }

  lemma OutcomeLedger(node: Node, core: Core, b: Id)
    ensures Ledger(RecordOf(StepOf(node)(core, b).1), TraceOf(node, core, b), |InputOf(node.g, node.bodies, b)|)
  {
    var h, tagged := HeaderOf(node.g, b), InputOf(node.g, node.bodies, b);
    var ctx := ContextFor(node.params, core, h);
    ExecutionLedger(node.params, node.parallel, core.accounts, ctx, tagged);
    SameLedger(Execute(node.params, node.parallel, core.accounts, ctx, tagged), RecordOf(StepOf(node)(core, b).1),
        TraceOf(node, core, b), |tagged|);
  }

  // A ledger is about the record alone, and not about its undo part.
  lemma SameLedger(p: Progress, q: Progress, trace: Trace, considered: nat)
    requires Ledger(p, trace, considered) && q.block == p.block.(undo := q.block.undo)
    ensures Ledger(q, trace, considered)
  {
    assert q.block.hashes == p.block.hashes && q.block.receipts == p.block.receipts;
  }

  // The result filed for the chain's block at height `n + 1` is the ledger of
  // what that block executes.
  ghost predicate LedgerAt(node: Node, root: Core, results: Results, chain: seq<Id>, n: nat)
    requires n < |chain|
  {
    n + 1 in results && Ledger(RecordOf(results[n + 1]), TraceAt(node, root, chain, n), |InputOf(node.g, node.bodies, chain[n])|)
  }

  // What executing the block files is what the chain's replay keeps for it.
  lemma FiledInReplay(step: Stepper, known: set<Id>, root: Core, chain: seq<Id>, n: nat)
    requires Lawful(step, known) && Known(known, chain) && IsRoot(root) && n < |chain|
    ensures n + 1 in Replay(step, root, chain).results
    ensures Replay(step, root, chain).results[n + 1] == step(Replay(step, root, chain[..n]), chain[n]).1
  {
    var upTo := chain[..n + 1];
    assert upTo + chain[n + 1..] == chain && upTo[..n] == chain[..n];
    assert forall x :: x in upTo || x in chain[n + 1..] ==> x in chain;
    ReplayKeepsPrefix(step, known, root, upTo, chain[n + 1..]);
    ReplayLast(step, known, root, upTo);
    assert forall x :: x in chain[..n] ==> x in chain;
    ReplayShape(step, known, root, chain[..n]);
  }

  // Every result of a replayed chain is the ledger of what its block executed
  // there, with all its deduplicated transactions executed or deferred.
  lemma ReplayLedgers(node: Node, root: Core, chain: seq<Id>, n: nat)
    requires Consistent(node.g) && Known(node.g.headers.Keys, chain) && IsRoot(root) && n < |chain|
    ensures LedgerAt(node, root, Replay(StepOf(node), root, chain).results, chain, n)
  {
    StepIsLawful(node);
    FiledInReplay(StepOf(node), node.g.headers.Keys, root, chain, n);
    OutcomeLedger(node, Replay(StepOf(node), root, chain[..n]), chain[n]);
  }

  // `receipt`
  function Lookup(results: Results, ix: TxIndex, key: nat): Option<(TxLocation, Receipt, Outcome)> {
    if key !in ix then None
    else
      var loc := ix[key];
      if loc.height !in results || loc.index >= |results[loc.height].receipts| then None
      else Some((loc, results[loc.height].receipts[loc.index], results[loc.height]))
  }

  // The receipt is the one its own execution produced: the transaction is one the
  // chain block was given, that block's replay executes it at this index and at
  // no other, and the receipt says what it did there.
  ghost predicate OwnReceipt(node: Node, root: Core, chain: seq<Id>, o: Outcome, loc: TxLocation, key: nat,
      receipt: Receipt) {
    && 1 <= loc.height <= |chain| && chain[loc.height - 1] == loc.chainBlock
    && var trace, tagged := TraceAt(node, root, chain, loc.height - 1), InputOf(node.g, node.bodies, loc.chainBlock);
    && Ledger(RecordOf(o), trace, |tagged|)
    && loc.index < |trace| && trace[loc.index].0.hash == key && receipt == ReceiptAt(trace, loc.index)
    && (exists n :: 0 <= n < |tagged| && trace[loc.index].0 == tagged[n].1)
    && forall i :: 0 <= i < |trace| && i != loc.index ==> trace[i].0.hash != key
  }

  lemma LedgerOwns(node: Node, root: Core, chain: seq<Id>, o: Outcome, loc: TxLocation, key: nat)
    requires 1 <= loc.height <= |chain| && chain[loc.height - 1] == loc.chainBlock
    requires Ledger(RecordOf(o), TraceAt(node, root, chain, loc.height - 1), |InputOf(node.g, node.bodies, loc.chainBlock)|)
    requires loc.index < |o.hashes| && o.hashes[loc.index] == key
    ensures loc.index < |o.receipts| && OwnReceipt(node, root, chain, o, loc, key, o.receipts[loc.index])
  {
    var core, b := Replay(StepOf(node), root, chain[..loc.height - 1]), loc.chainBlock;
    var tagged := InputOf(node.g, node.bodies, b);
    DeduplicatedOnce(TagAll(node.g, node.bodies, BaseSequence(node.g, b)), {});
    ExecutedAsGiven(node.params, node.parallel, core.accounts, ContextFor(node.params, core, HeaderOf(node.g, b)),
        tagged);
    assert RecordOf(o).block.hashes[loc.index] == TraceAt(node, root, chain, loc.height - 1)[loc.index].0.hash;
    assert RecordOf(o).block.receipts[loc.index] == ReceiptAt(TraceAt(node, root, chain, loc.height - 1), loc.index);
  }

  lemma LocatedOnChain(node: Node, root: Core, st: ExecState, tip: Id, key: nat, loc: TxLocation)
    requires InStep(node, root, st, tip) && Located(st.core.results, key, loc)
    ensures var chain := ExecutedChain(node.g, tip);
      && 1 <= loc.height <= |chain| && chain[loc.height - 1] == loc.chainBlock
      && LedgerAt(node, root, st.core.results, chain, loc.height - 1)
  {
    InStepShape(node, root, st, tip);
    LocatedInReplay(node, root, ExecutedChain(node.g, tip), key, loc);
  }

  lemma LocatedInReplay(node: Node, root: Core, chain: seq<Id>, key: nat, loc: TxLocation)
    requires Consistent(node.g) && Known(node.g.headers.Keys, chain) && IsRoot(root)
    requires Located(Replay(StepOf(node), root, chain).results, key, loc)
    ensures 1 <= loc.height <= |chain| && chain[loc.height - 1] == loc.chainBlock
    ensures LedgerAt(node, root, Replay(StepOf(node), root, chain).results, chain, loc.height - 1)
  {
    StepIsLawful(node);
    ReplayShape(StepOf(node), node.g.headers.Keys, root, chain);
    ReplayLedgers(node, root, chain, loc.height - 1);
  }

  // A lookup answers exactly for indexed transactions, with the block of the
  // current chain that executed it and the receipt of that very execution.
  lemma ReceiptIsOwn(node: Node, root: Core, st: ExecState, tip: Id, ix: TxIndex, key: nat)
    requires InStep(node, root, st, tip) && IndexSound(st.core.results, ix)
    ensures Lookup(st.core.results, ix, key).Some? <==> key in ix
    ensures key in ix ==>
      var (loc, receipt, o) := Lookup(st.core.results, ix, key).value;
      && loc.chainBlock in ExecutedChain(node.g, tip) && o.hash == loc.chainBlock
      && OwnReceipt(node, root, ExecutedChain(node.g, tip), o, loc, key, receipt)
  {
    if key in ix {
      assert Located(st.core.results, key, ix[key]);
      LocatedOnChain(node, root, st, tip, key, ix[key]);
      LedgerOwns(node, root, ExecutedChain(node.g, tip), st.core.results[ix[key].height], ix[key], key);
    }
  }
}
