// The chain executor: world state, results by height and the undo journal, kept
// in step with the selected chain through reorgs.
module Executor {
  import opened Blocks
  import opened Seqs
  import opened Ghostdag
  import opened WorldStates
  import opened Journal
  import opened Ordering
  import opened Rounds
  import opened Execution
  import opened Parallel
  import opened ParallelBlock
  import opened RoundGuard
  import opened BlockGuard
  import opened ChainInput

  const INITIAL_BASE_FEE: nat := 1_000_000_000

  datatype Outcome = Outcome(
    height: nat, hash: Id, stateRoot: nat, receiptsRoot: nat, gasUsed: nat, baseFee: nat,
    executed: nat, deferred: nat, hashes: seq<nat>, receipts: seq<Receipt>, timestampSecs: nat, miner: Address)

  // The EVM, the two root functions and the fee rule, with the chain's limits.
  datatype Params = Params(
    evm: Evm,
    stateRoot: Accounts -> nat,
    receiptsRoot: seq<Receipt> -> nat,
    nextFee: (nat, nat, nat) -> nat,
    gasLimit: nat,
    gasTarget: nat,
    window: nat)

  type Results = map<nat, Outcome>

  // Everything but the journal: what replaying a chain from genesis determines.
  datatype Core = Core(accounts: Accounts, results: Results, height: nat, tip: Id)

  datatype Entry = Entry(height: nat, hash: Id, undo: UndoRecord)

  datatype ExecutionError = UnknownBlock(block: Id) | NothingToUndo(expected: Id) | UndoOutOfOrder(expected: Id, found: Id)

  datatype Done<+T> = Success(value: T) | Failure(error: ExecutionError)

  function Genesis(params: Params, accounts: Accounts, hash: Id): Core {
    var outcome := Outcome(0, hash, params.stateRoot(accounts), params.receiptsRoot([]), 0, INITIAL_BASE_FEE, 0, 0, [],
        [], 0, 0);
    Core(accounts, map[0 := outcome], 0, hash)
  }

  // `next_base_fee`
  function NextBaseFee(params: Params, results: Results, parent: nat): nat {
    if parent !in results then INITIAL_BASE_FEE
    else params.nextFee(results[parent].gasUsed, Add64(params.gasTarget, params.gasTarget), results[parent].baseFee)
  }

  function ContextFor(params: Params, core: Core, h: Header): BlockCtx {
    BlockCtx(core.height + 1, h.timestampMs / 1000, NextBaseFee(params, core.results, core.height), params.gasLimit, h.hash)
  }

  function AccessOf(tagged: Tagged): (access: Access)
    ensures |access| == |tagged|
  {
    seq(|tagged|, i requires 0 <= i < |tagged| => tagged[i].1.keys)
  }

  // The transactions in canonical order, one at a time or round by round.
  ghost function Execute(params: Params, parallel: bool, accounts: Accounts, ctx: BlockCtx, tagged: Tagged): Progress {
    var access := AccessOf(tagged);
    var order := CanonicalOrder(access);
    OrderPositions(tagged, order);
    if parallel then
      RunParallel(params.evm, ctx, params.gasLimit, Progress(accounts, EMPTY_BLOCK), tagged, Partition(access, order, [], {}))
    else
      RunSequential(params.evm, ctx, params.gasLimit, Progress(accounts, EMPTY_BLOCK), tagged, order)
  }

  lemma OrderPositions(tagged: Tagged, order: seq<nat>)
    requires Canonical(AccessOf(tagged), order)
    ensures Positions(tagged, order) && Indices(AccessOf(tagged), order)
    ensures AllPositions(tagged, Partition(AccessOf(tagged), order, [], {}))
  {
    forall n | 0 <= n < |order| ensures order[n] < |tagged| {
      assert order[n] in order;
    }
    PartitionFlattens(AccessOf(tagged), order, [], {});
    assert [] + order == order;
    GroupPositions(tagged, Partition(AccessOf(tagged), order, [], {}));
  }

  lemma GroupPositions(tagged: Tagged, groups: seq<seq<nat>>)
    requires Positions(tagged, Flatten(groups))
    ensures AllPositions(tagged, groups)
  {
    forall g, n | 0 <= g < |groups| && 0 <= n < |groups[g]| ensures groups[g][n] < |tagged| {
      assert groups[g][n] in groups[g];
      FlattenHolds(groups, g, groups[g][n]);
      var i := IndexOf(Flatten(groups), groups[g][n]);
    }
  }

  function OutcomeOf(params: Params, core: Core, h: Header, ctx: BlockCtx, q: Progress): Outcome {
    Outcome(core.height + 1, h.hash, params.stateRoot(q.accounts), params.receiptsRoot(q.block.receipts), q.block.gasUsed,
            ctx.baseFee, q.block.executed, q.block.deferred, q.block.hashes, q.block.receipts, ctx.timestampSecs, h.miner)
  }

  datatype ExecState = ExecState(core: Core, journal: seq<Entry>)

  // `prune_journal`
  function Pruned(journal: seq<Entry>, below: nat): seq<Entry> {
    if journal == [] then []
    else (if journal[0].height >= below then [journal[0]] else []) + Pruned(journal[1..], below)
  }

  // One block on top of a core: the core after it, its outcome, its undo record.
  ghost function BlockStep(params: Params, parallel: bool, core: Core, h: Header, tagged: Tagged): (Core, Outcome,
      UndoRecord) {
    var ctx := ContextFor(params, core, h);
    var q := Execute(params, parallel, core.accounts, ctx, tagged);
    Settled(params, core, h, ctx, q)
  }

  function Settled(params: Params, core: Core, h: Header, ctx: BlockCtx, q: Progress): (Core, Outcome, UndoRecord) {
    var outcome := OutcomeOf(params, core, h, ctx, q);
    (Core(q.accounts, core.results[core.height + 1 := outcome], core.height + 1, h.hash), outcome, q.block.undo)
  }

  // Filing a step: its journal entry, pruned to the window.
  function Filed(window: nat, st: ExecState, s: (Core, Outcome, UndoRecord)): ExecState {
    var journal := st.journal + [Entry(s.0.height, s.0.tip, s.2)];
    ExecState(s.0, if s.0.height > window then Pruned(journal, s.0.height - window) else journal)
  }

  // The record of either execution covers it.
  lemma ExecutionCovers(params: Params, parallel: bool, accounts: Accounts, ctx: BlockCtx, tagged: Tagged)
    ensures var q := Execute(params, parallel, accounts, ctx, tagged); Restored(q.accounts, q.block.undo) == accounts
  {
    var order := CanonicalOrder(AccessOf(tagged));
    var start := Progress(accounts, EMPTY_BLOCK);
    OrderPositions(tagged, order);
    EmptyCovers(accounts);
    if parallel {
      ParallelCovers(params.evm, ctx, params.gasLimit, accounts, start, tagged,
          Partition(AccessOf(tagged), order, [], {}));
    } else {
      SequentialCovers(params.evm, ctx, params.gasLimit, accounts, start, tagged, order);
    }
    var q := Execute(params, parallel, accounts, ctx, tagged);
    UndoRestores(accounts, q.accounts, q.block.undo);
  }

  // What executing a block executes, either way.
  ghost function ExecutedTrace(params: Params, parallel: bool, accounts: Accounts, ctx: BlockCtx,
      tagged: Tagged): Trace {
    var order := CanonicalOrder(AccessOf(tagged));
    OrderPositions(tagged, order);
    if parallel then
      TraceParallel(params.evm, ctx, params.gasLimit, Progress(accounts, EMPTY_BLOCK), tagged,
                    Partition(AccessOf(tagged), order, [], {}))
    else
      TraceSequential(params.evm, ctx, params.gasLimit, Progress(accounts, EMPTY_BLOCK), tagged, order)
  }

  // The record is the ledger of what was executed, and accounts for every
  // deduplicated transaction.
  lemma ExecutionLedger(params: Params, parallel: bool, accounts: Accounts, ctx: BlockCtx, tagged: Tagged)
    ensures Ledger(Execute(params, parallel, accounts, ctx, tagged), ExecutedTrace(params, parallel, accounts, ctx, tagged), |tagged|)
  {
    var order := CanonicalOrder(AccessOf(tagged));
    var start := Progress(accounts, EMPTY_BLOCK);
    OrderPositions(tagged, order);
    EmptyLedger(start, []);
    if parallel {
      var layers := Partition(AccessOf(tagged), order, [], {});
      PartitionFlattens(AccessOf(tagged), order, [], {});
      assert [] + order == order;
      ParallelLedger(params.evm, ctx, params.gasLimit, start, tagged, layers, [], 0);
      assert [] + TraceParallel(params.evm, ctx, params.gasLimit, start, tagged, layers)
          == TraceParallel(params.evm, ctx, params.gasLimit, start, tagged, layers);
    } else {
      SequentialLedger(params.evm, ctx, params.gasLimit, start, tagged, order, [], 0);
      assert [] + TraceSequential(params.evm, ctx, params.gasLimit, start, tagged, order)
          == TraceSequential(params.evm, ctx, params.gasLimit, start, tagged, order);
    }
  }

  lemma OrderHashes(tagged: Tagged, order: seq<nat>)
    requires Deduped(tagged) && Canonical(AccessOf(tagged), order)
    ensures Positions(tagged, order) && DistinctHashes(tagged, order)
  {
    OrderPositions(tagged, order);
    forall i, j | 0 <= i < j < |order| ensures tagged[order[i]].1.hash != tagged[order[j]].1.hash {
      assert Earlier(AccessOf(tagged), order[i], order[j]);
      assert order[i] != order[j];
    }
  }

  // Everything executed was given, in canonical order, and executes once.
  lemma ExecutedAsGiven(params: Params, parallel: bool, accounts: Accounts, ctx: BlockCtx, tagged: Tagged)
    ensures var order := CanonicalOrder(AccessOf(tagged));
      Positions(tagged, order) && Drawn(ExecutedTrace(params, parallel, accounts, ctx, tagged), tagged, order)
    ensures Deduped(tagged) ==> var trace := ExecutedTrace(params, parallel, accounts, ctx, tagged);
      && (forall i :: 0 <= i < |trace| ==> exists n :: 0 <= n < |tagged| && trace[i].0 == tagged[n].1)
      && forall i, j :: 0 <= i < j < |trace| ==> trace[i].0.hash != trace[j].0.hash
  {
    var order := CanonicalOrder(AccessOf(tagged));
    var start, trace := Progress(accounts, EMPTY_BLOCK), ExecutedTrace(params, parallel, accounts, ctx, tagged);
    OrderPositions(tagged, order);
    if parallel {
      PartitionFlattens(AccessOf(tagged), order, [], {});
      assert [] + order == order;
      ParallelDrawn(params.evm, ctx, params.gasLimit, start, tagged, Partition(AccessOf(tagged), order, [], {}));
    } else {
      SequentialDrawn(params.evm, ctx, params.gasLimit, start, tagged, order);
    }
    if Deduped(tagged) {
      OrderHashes(tagged, order);
      DrawnOnce(trace, tagged, order);
      forall i | 0 <= i < |trace| ensures exists n :: 0 <= n < |tagged| && trace[i].0 == tagged[n].1 {
        var n :| 0 <= n < |order| && trace[i].0 == tagged[order[n]].1;
      }
    }
  }

  // The rounds a block executes in, when it executes in rounds.
  ghost function RoundsOf(tagged: Tagged): (layers: seq<seq<nat>>)
    ensures AllPositions(tagged, layers) && Flatten(layers) == CanonicalOrder(AccessOf(tagged))
  {
    var order := CanonicalOrder(AccessOf(tagged));
    OrderPositions(tagged, order);
    PartitionFlattens(AccessOf(tagged), order, [], {});
    assert [] + order == order;
    Partition(AccessOf(tagged), order, [], {})
  }

  // Where no committed round looks at what it credits, executing a deduplicated
  // block in rounds is executing it one at a time if and only if every round is
  // faithful.
  lemma FaithfulEitherWay(params: Params, accounts: Accounts, ctx: BlockCtx, tagged: Tagged)
    requires Deduped(tagged)
    requires CreditsApart(params.evm, ctx, params.gasLimit, Progress(accounts, EMPTY_BLOCK), tagged, RoundsOf(tagged))
    ensures EitherWay(params, accounts, ctx, tagged)
            <==> FaithfulRounds(params.evm, ctx, params.gasLimit, Progress(accounts, EMPTY_BLOCK), tagged, RoundsOf(tagged))
  {
    OrderHashes(tagged, CanonicalOrder(AccessOf(tagged)));
    FaithfulBlockIsSequential(params.evm, ctx, params.gasLimit, Progress(accounts, EMPTY_BLOCK), tagged,
        RoundsOf(tagged));
  }

  // Every round of the block is guarded.
  ghost predicate GuardedBlock(params: Params, accounts: Accounts, ctx: BlockCtx, tagged: Tagged) {
    GuardedRounds(params.evm, ctx, params.gasLimit, Progress(accounts, EMPTY_BLOCK), tagged, RoundsOf(tagged))
  }

  // Executing in rounds and one at a time give one result.
  ghost predicate EitherWay(params: Params, accounts: Accounts, ctx: BlockCtx, tagged: Tagged) {
    Execute(params, true, accounts, ctx, tagged) == Execute(params, false, accounts, ctx, tagged)
  }

  // A lawful EVM that executing this block in rounds cannot tell from the node's.
  ghost predicate BlockTwin(params: Params, evm: Evm, accounts: Accounts, ctx: BlockCtx, tagged: Tagged) {
    Twin(params.evm, evm, ctx, params.gasLimit, Progress(accounts, EMPTY_BLOCK), tagged, RoundsOf(tagged))
  }

  // Executing a guarded block in rounds is executing it one at a time.
  lemma GuardedEitherWay(params: Params, accounts: Accounts, ctx: BlockCtx, tagged: Tagged)
    requires Framed(params.evm) && HonestFlags(params.evm) && GuardedBlock(params, accounts, ctx, tagged)
    ensures EitherWay(params, accounts, ctx, tagged)
  {
    GuardedBlockIsSequential(params.evm, ctx, params.gasLimit, Progress(accounts, EMPTY_BLOCK), tagged,
        RoundsOf(tagged));
  }

  // Of any other deduplicated block, there is an EVM as lawful, doing the same
  // wherever executing in rounds asks it, with which the two results differ.
  lemma UnguardedDiffers(params: Params, accounts: Accounts, ctx: BlockCtx, tagged: Tagged) returns (params': Params)
    requires Framed(params.evm) && HonestFlags(params.evm) && Deduped(tagged)
    requires !GuardedBlock(params, accounts, ctx, tagged)
    requires PayableRounds(params.evm, ctx, params.gasLimit, Progress(accounts, EMPTY_BLOCK), tagged, RoundsOf(tagged))
    ensures params' == params.(evm := params'.evm) && AsLawful(params.evm, params'.evm)
    ensures BlockTwin(params, params'.evm, accounts, ctx, tagged) && !EitherWay(params', accounts, ctx, tagged)
  {
    OrderHashes(tagged, CanonicalOrder(AccessOf(tagged)));
    var evm', hash := UnguardedBlockShows(params.evm, ctx, params.gasLimit, Progress(accounts, EMPTY_BLOCK), tagged,
        RoundsOf(tagged));
    params' := params.(evm := evm');
  }

  // So executing a deduplicated block in rounds is executing it one at a time, with
  // every lawful EVM the rounds cannot tell from this one, if and only if it is
  // guarded.
  lemma EitherWayIsTheSame(params: Params, accounts: Accounts, ctx: BlockCtx, tagged: Tagged)
    requires Framed(params.evm) && HonestFlags(params.evm) && Deduped(tagged)
    requires PayableRounds(params.evm, ctx, params.gasLimit, Progress(accounts, EMPTY_BLOCK), tagged, RoundsOf(tagged))
    ensures GuardedBlock(params, accounts, ctx, tagged)
            <==> forall evm': Evm {:trigger BlockTwin(params, evm', accounts, ctx, tagged)} ::
                   BlockTwin(params, evm', accounts, ctx, tagged) ==> EitherWay(params.(evm := evm'), accounts, ctx, tagged)
  {
    if GuardedBlock(params, accounts, ctx, tagged) {
      forall evm': Evm | BlockTwin(params, evm', accounts, ctx, tagged)
        ensures EitherWay(params.(evm := evm'), accounts, ctx, tagged)
      {
        SameRoundsGuardAlike(params.evm, evm', ctx, params.gasLimit, Progress(accounts, EMPTY_BLOCK), tagged,
            RoundsOf(tagged));
        GuardedEitherWay(params.(evm := evm'), accounts, ctx, tagged);
      }
    } else {
      var params' := UnguardedDiffers(params, accounts, ctx, tagged);
      assert BlockTwin(params, params'.evm, accounts, ctx, tagged);
      assert params.(evm := params'.evm) == params';
    }
  }

  /* ---------- the journal ---------- */

  // `execute_chain_block`
  ghost function ExecuteChainBlock(params: Params, parallel: bool, g: Dag, bodies: Bodies, st: ExecState,
      b: Id): Done<(ExecState, Outcome)> {
    if b !in g.headers then Failure(UnknownBlock(b)) else
      var s := BlockStep(params, parallel, st.core, g.headers[b], InputOf(g, bodies, b));
      Success((Filed(params.window, st, s), s.1))
  }

  // `undo_one`
  function UndoOne(st: ExecState, expected: Id): Done<ExecState> {
    if st.journal == [] then Failure(NothingToUndo(expected)) else
      var last := st.journal[|st.journal| - 1];
      if last.hash != expected then Failure(UndoOutOfOrder(expected, last.hash)) else
        var journal := st.journal[..|st.journal| - 1];
        var results := st.core.results - {last.height};
        var tip := if journal != [] then journal[|journal| - 1].hash
                   else if 0 in results then results[0].hash else last.hash;
        var height := if last.height == 0 then 0 else last.height - 1;
        Success(ExecState(Core(Restored(st.core.accounts, last.undo), results, height, tip), journal))
  }

  // Undoes the listed blocks until one fails: the state reached, and the error.
  function UndoAll(st: ExecState, removed: seq<Id>): (ExecState, Option<ExecutionError>)
    decreases |removed|
  {
    if removed == [] then (st, None) else
      match UndoOne(st, removed[0])
      case Failure(e) => (st, Some(e))
      case Success(next) => UndoAll(next, removed[1..])
  }

  // Executes the listed blocks until one fails.
  ghost function ExecuteAll(params: Params, parallel: bool, g: Dag, bodies: Bodies, st: ExecState, added: seq<Id>,
      outcomes: seq<Outcome>): (ExecState, Done<seq<Outcome>>)
    decreases |added|
  {
    if added == [] then (st, Success(outcomes)) else
      match ExecuteChainBlock(params, parallel, g, bodies, st, added[0])
      case Failure(e) => (st, Failure(e))
      case Success(next) => ExecuteAll(params, parallel, g, bodies, next.0, added[1..], outcomes + [next.1])
  }

  // `apply_reorg`
  ghost function ApplyReorg(params: Params, parallel: bool, g: Dag, bodies: Bodies, st: ExecState, removed: seq<Id>,
      added: seq<Id>): (ExecState, Done<seq<Outcome>>) {
    var (undone, error) := UndoAll(st, removed);
    match error
    case Some(e) => (undone, Failure(e))
    case None => ExecuteAll(params, parallel, g, bodies, undone, added, [])
  }

  class ChainExecutor {
    const params: Params
    const state: WorldState
    var parallel: bool
    var results: Results
    var journal: seq<Entry>
    var height: nat
    var tip: Id
    var parallelRounds: nat
    var fallbackRounds: nat

    ghost function View(): ExecState
      reads this, state
    {
      ExecState(Core(state.accounts, results, height, tip), journal)
    }

    constructor (params: Params, accounts: Accounts, hash: Id)
      ensures View() == ExecState(Genesis(params, accounts, hash), []) && !parallel && this.params == params
      ensures fresh(state)
    {
      this.params := params;
      state := new WorldState(accounts);
      parallel, journal, height, tip := false, [], 0, hash;
      parallelRounds, fallbackRounds := 0, 0;
      results := Genesis(params, accounts, hash).results;
    }

    method SetParallel(on: bool)
      modifies this`parallel
      ensures parallel == on
    {
      parallel := on;
    }

    // `execute_chain_block`
    method ExecuteOne(g: Dag, bodies: Bodies, b: Id) returns (r: Done<Outcome>)
      modifies this, state
      ensures parallel == old(parallel)
      ensures match old(ExecuteChainBlock(params, parallel, g, bodies, View(), b))
              case Failure(e) => View() == old(View()) && r == Failure(e)
              case Success(next) => View() == next.0 && r == Success(next.1)
    {
      if b !in g.headers {
        return Failure(UnknownBlock(b));
      }
      var header := g.headers[b];
      ghost var st := View();
      ghost var step := BlockStep(params, parallel, st.core, header, InputOf(g, bodies, b));
      var tagged := CollectInput(g, bodies, b);
      var ctx := ContextFor(params, Core(state.accounts, results, height, tip), header);
      var block := RunBlock(ctx, tagged);
      assert step == Settled(params, st.core, header, ctx, Progress(state.accounts, block));
      var outcome := Settle(st.core.accounts, header, ctx, block);
      r := Success(outcome);
    }

    method Settle(ghost before: Accounts, header: Header, ctx: BlockCtx,
        block: ExecutedBlock) returns (outcome: Outcome)
      modifies this`results, this`journal, this`height, this`tip
      ensures var s := Settled(params, old(View().core).(accounts := before), header, ctx, Progress(state.accounts, block));
        View() == Filed(params.window, old(View()), s) && outcome == s.1
    {
      outcome := Outcome(height + 1, header.hash, params.stateRoot(state.accounts), params.receiptsRoot(block.receipts),
                         block.gasUsed, ctx.baseFee, block.executed, block.deferred, block.hashes, block.receipts,
                         ctx.timestampSecs, header.miner);
      journal := journal + [Entry(height + 1, header.hash, block.undo)];
      results := results[height + 1 := outcome];
      height := height + 1;
      tip := header.hash;
      if height > params.window {
        PruneJournal(height - params.window);
      }
    }

    method RunBlock(ctx: BlockCtx, tagged: Tagged) returns (block: ExecutedBlock)
      modifies this`parallelRounds, this`fallbackRounds, state
      ensures Progress(state.accounts, block) == old(Execute(params, parallel, state.accounts, ctx, tagged))
    {
      var access := AccessOf(tagged);
      var order := LayerAndSort(access);
      CanonicalIsTheOrder(access, order);
      OrderPositions(tagged, order);
      if parallel {
        var layers := PartitionRounds(access, order);
        var committed, fellBack;
        block, committed, fellBack := ExecuteRoundsParallel(params.evm, ctx, params.gasLimit, state, tagged, layers);
        parallelRounds, fallbackRounds := parallelRounds + committed, fallbackRounds + fellBack;
      } else {
        block := ExecuteSequentially(params.evm, ctx, params.gasLimit, state, tagged, order);
      }
    }

    method PruneJournal(below: nat)
      modifies this`journal
      ensures journal == Pruned(old(journal), below)
    {
      var kept: seq<Entry> := [];
      for i := 0 to |journal|
        invariant journal == old(journal)
        invariant Pruned(journal, below) == kept + Pruned(journal[i..], below)
      {
        assert journal[i..][1..] == journal[i + 1..];
        if journal[i].height >= below {
          kept := kept + [journal[i]];
        }
      }
      assert journal[|journal|..] == [];
      journal := kept;
    }

    // `undo_one`: out of order, nothing changes.
    method Undo(expected: Id) returns (r: Option<ExecutionError>)
      modifies this`results, this`journal, this`height, this`tip, state
      ensures match old(UndoOne(View(), expected))
              case Failure(e) => View() == old(View()) && r == Some(e)
              case Success(next) => View() == next && r == None
    {
      if journal == [] {
        return Some(NothingToUndo(expected));
      }
      var last := journal[|journal| - 1];
      journal := journal[..|journal| - 1];
      if last.hash != expected {
        journal := journal + [last];
        return Some(UndoOutOfOrder(expected, last.hash));
      }
      Journal.Apply(last.undo, state);
      results := results - {last.height};
      height := if last.height == 0 then 0 else last.height - 1;
      tip := if journal != [] then journal[|journal| - 1].hash
             else if 0 in results then results[0].hash else last.hash;
      r := None;
    }

    // `apply_reorg`
    method Reorganise(g: Dag, bodies: Bodies, removed: seq<Id>, added: seq<Id>) returns (r: Done<seq<Outcome>>)
      modifies this, state
      ensures parallel == old(parallel)
      ensures (View(), r) == old(ApplyReorg(params, parallel, g, bodies, View(), removed, added))
    {
      ghost var goal := ApplyReorg(params, parallel, g, bodies, View(), removed, added);
      ghost var before := UndoAll(View(), removed);
      for i := 0 to |removed|
        invariant parallel == old(parallel) && before == UndoAll(View(), removed[i..])
      {
        assert removed[i..][1..] == removed[i + 1..];
        var error := Undo(removed[i]);
        if error.Some? {
          return Failure(error.value);
        }
      }
      assert removed[|removed|..] == [];
      var outcomes: seq<Outcome> := [];
      for i := 0 to |added|
        invariant parallel == old(parallel)
        invariant goal == ExecuteAll(params, parallel, g, bodies, View(), added[i..], outcomes)
      {
        assert added[i..][1..] == added[i + 1..];
        var one := ExecuteOne(g, bodies, added[i]);
        if one.Failure? {
          return Failure(one.error);
        }
        outcomes := outcomes + [one.value];
      }
      assert added[|added|..] == [];
      r := Success(outcomes);
    }
  }
}
