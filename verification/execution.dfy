// Executing a chain block's transactions one at a time, and the record kept of it.
module Execution {
  import opened Blocks
  import opened Compact
  import opened WorldStates
  import opened Seqs
  import opened Journal

  const U64_MAX: nat := 0xffff_ffff_ffff_ffff

  function Add64(a: nat, b: nat): nat {
    if a + b > U64_MAX then U64_MAX else a + b
  }

  function Add256(a: nat, b: nat): U256 {
    if a + b > U256_MAX then U256_MAX else a + b
  }

  datatype Tx = Tx(hash: nat, sender: Address, keys: seq<Address>, gasLimit: nat, maxFee: nat, maxPriority: Option<nat>)

  datatype BlockCtx = BlockCtx(height: nat, timestampSecs: nat, baseFee: nat, gasLimit: nat, prevrandao: Id)

  // What executing a transaction proper produces, before the fee reward: the
  // changed accounts, and every account its outcome depends on.
  datatype Effect = Effect(success: bool, gasUsed: nat, logs: nat, changes: Changes, readSet: set<Address>)

  // The EVM: deterministic in the accounts, the context, the beneficiary and the
  // transaction; `None` for a transaction that is not executable.
  type Evm = (Accounts, BlockCtx, Address, Tx) -> Option<Effect>

  // It depends on, and changes, only the accounts it reads.
  ghost predicate Framed(evm: Evm) {
    && (forall s, ctx, miner, tx {:trigger evm(s, ctx, miner, tx)} ::
          evm(s, ctx, miner, tx).Some? ==> evm(s, ctx, miner, tx).value.changes.Keys <= evm(s, ctx, miner, tx).value.readSet)
    && (forall s, s', ctx, miner, tx {:trigger evm(s, ctx, miner, tx), evm(s', ctx, miner, tx)} ::
          evm(s, ctx, miner, tx).Some? && SameOn(s, s', evm(s, ctx, miner, tx).value.readSet)
          ==> evm(s', ctx, miner, tx) == evm(s, ctx, miner, tx))
  }

  // Creating or destroying an account shows in its nonce, and an entry says whether
  // its account was there: only what a transaction itself creates is destroyed
  // (EIP-6780), and what it creates starts at nonce one (EIP-161).
  predicate HonestEntry(prior: Option<AccountState>, c: Change) {
    && (c.created || c.selfdestructed ==> c.info.nonce != InfoOf(prior).nonce)
    && (c.loadedAsNotExisting <==> prior.None?)
  }

  ghost predicate HonestFlags(evm: Evm) {
    forall s, ctx, miner, tx, a {:trigger evm(s, ctx, miner, tx), Get(s, a)} ::
      evm(s, ctx, miner, tx).Some? && a in evm(s, ctx, miner, tx).value.changes ==>
        HonestEntry(Get(s, a), evm(s, ctx, miner, tx).value.changes[a])
  }

  // No transaction uses more gas than it declares.
  ghost predicate GasBounded(evm: Evm) {
    forall s, ctx, miner, tx {:trigger evm(s, ctx, miner, tx)} ::
      evm(s, ctx, miner, tx).Some? ==> evm(s, ctx, miner, tx).value.gasUsed <= tx.gasLimit
  }

  ghost predicate SameOn(s: Accounts, s': Accounts, addresses: set<Address>) {
    forall a :: a in addresses ==> Get(s, a) == Get(s', a)
  }

  // The priority fee per gas the beneficiary earns: a transaction without a
  // priority cap pays everything above the base fee.
  function Tip(ctx: BlockCtx, tx: Tx): nat {
    var above := if tx.maxFee > ctx.baseFee then tx.maxFee - ctx.baseFee else 0;
    match tx.maxPriority
    case Some(cap) => if cap < above then cap else above
    case None => above
  }

  // Every unit of gas pays the same price.
  function Fee(price: nat, gas: nat): nat {
    if gas == 0 then 0 else price + Fee(price, gas - 1)
  }

  lemma {:induction false} FeeIsProduct(price: nat, gas: nat)
    ensures Fee(price, gas) == price * gas
  {
    if gas == 0 {
    } else {
      FeeIsProduct(price, gas - 1);
    }
  }

  function InfoOf(v: Option<AccountState>): AccountInfo {
    match v
    case Some(account) => account.info
    case None => EMPTY_ACCOUNT.info
  }

  // The beneficiary's entry after the reward: loaded if it was not, marked
  // touched, its balance raised.
  function Rewarded(prior: Option<AccountState>, changes: Changes, miner: Address, fee: nat): Change {
    if miner in changes then
      changes[miner].(touched := true, info := changes[miner].info.(balance := Add256(changes[miner].info.balance, fee)))
    else
      Change(true, false, false, prior.None?, InfoOf(prior).(balance := Add256(InfoOf(prior).balance, fee)), map[])
  }

  // `evm.transact`: execution proper, then the reward.
  function Transact(evm: Evm, s: Accounts, ctx: BlockCtx, miner: Address, tx: Tx): Option<Effect> {
    match evm(s, ctx, miner, tx)
    case None => None
    case Some(e) =>
      var entry := Rewarded(Get(s, miner), e.changes, miner, Fee(Tip(ctx, tx), e.gasUsed));
      Some(e.(changes := e.changes[miner := entry], readSet := e.readSet + {miner}))
  }

  /* ---------- the record of a block ---------- */

  datatype Receipt = Receipt(success: bool, cumulativeGas: nat, logs: nat)

  datatype ExecutedBlock = ExecutedBlock(
    undo: UndoRecord, gasUsed: nat, executed: nat, deferred: nat, receipts: seq<Receipt>, hashes: seq<nat>)

  const EMPTY_BLOCK := ExecutedBlock(map[], 0, 0, 0, [], [])

  // `record`
  function Record(block: ExecutedBlock, tx: Tx, e: Effect): ExecutedBlock {
    var gas := Add64(block.gasUsed, e.gasUsed);
    block.(gasUsed := gas, executed := block.executed + 1, hashes := block.hashes + [tx.hash],
           receipts := block.receipts + [Receipt(e.success, gas, e.logs)])
  }

  function Rebased(base: nat, receipts: seq<Receipt>): (r: seq<Receipt>)
    ensures |r| == |receipts|
    ensures forall i :: 0 <= i < |r| ==> r[i] == receipts[i].(cumulativeGas := Add64(base, receipts[i].cumulativeGas))
  {
    seq(|receipts|, i requires 0 <= i < |receipts| => receipts[i].(cumulativeGas := Add64(base, receipts[i].cumulativeGas)))
  }

  // `absorb`: a fallback round's receipts restarted from zero and are rebased.
  function Absorb(block: ExecutedBlock, other: ExecutedBlock): ExecutedBlock {
    ExecutedBlock(
      Merge(block.undo, other.undo), Add64(block.gasUsed, other.gasUsed),
      block.executed + other.executed, block.deferred + other.deferred,
      block.receipts + Rebased(block.gasUsed, other.receipts), block.hashes + other.hashes)
  }

  /* ---------- sequential execution ---------- */

  type Tagged = seq<(Address, Tx)>

  datatype Progress = Progress(accounts: Accounts, block: ExecutedBlock)

  function Defer(p: Progress): Progress {
    p.(block := p.block.(deferred := p.block.deferred + 1))
  }

  // Whether the running gas rule skips a transaction.
  predicate OverBudget(block: ExecutedBlock, tx: Tx, limit: nat) {
    Add64(block.gasUsed, tx.gasLimit) > limit
  }

  function Commit(p: Progress, tx: Tx, e: Effect): Progress {
    Progress(Committed(p.accounts, e.changes),
             Record(p.block.(undo := NoteAll(p.block.undo, e.changes.Keys, p.accounts)), tx, e))
  }

  function Step(evm: Evm, ctx: BlockCtx, limit: nat, p: Progress, miner: Address, tx: Tx): Progress {
    if OverBudget(p.block, tx, limit) then Defer(p) else
      match Transact(evm, p.accounts, ctx, miner, tx)
      case None => Defer(p)
      case Some(e) => Commit(p, tx, e)
  }

  predicate Positions(tagged: Tagged, order: seq<nat>) {
    forall n :: 0 <= n < |order| ==> order[n] < |tagged|
  }

  function DeclaredGas(tagged: Tagged, order: seq<nat>): nat
    requires Positions(tagged, order)
    decreases |order|
  {
    if order == [] then 0 else tagged[order[0]].1.gasLimit + DeclaredGas(tagged, order[1..])
  }

  // Different hashes throughout.
  ghost predicate Deduped(tagged: Tagged) {
    forall i, j :: 0 <= i < j < |tagged| ==> tagged[i].1.hash != tagged[j].1.hash
  }

  // The transactions at these positions carry different hashes.
  ghost predicate DistinctHashes(tagged: Tagged, order: seq<nat>)
    requires Positions(tagged, order)
  {
    forall i, j :: 0 <= i < j < |order| ==> tagged[order[i]].1.hash != tagged[order[j]].1.hash
  }

  // `execute_sequentially`, from any point of the block.
  function RunSequential(evm: Evm, ctx: BlockCtx, limit: nat, p: Progress, tagged: Tagged, order: seq<nat>): Progress
    requires Positions(tagged, order)
    decreases |order|
  {
    if order == [] then p else
      var (miner, tx) := tagged[order[0]];
      RunSequential(evm, ctx, limit, Step(evm, ctx, limit, p, miner, tx), tagged, order[1..])
  }

  lemma {:induction false} RunConcat(evm: Evm, ctx: BlockCtx, limit: nat, p: Progress, tagged: Tagged, a: seq<nat>,
      b: seq<nat>)
    requires Positions(tagged, a) && Positions(tagged, b)
    ensures Positions(tagged, a + b)
    ensures RunSequential(evm, ctx, limit, p, tagged, a + b)
            == RunSequential(evm, ctx, limit, RunSequential(evm, ctx, limit, p, tagged, a), tagged, b)
    decreases |a|
  {
    if a == [] {
      assert a + b == b;
    } else {
      assert (a + b)[1..] == a[1..] + b;
      var (miner, tx) := tagged[a[0]];
      RunConcat(evm, ctx, limit, Step(evm, ctx, limit, p, miner, tx), tagged, a[1..], b);
    }
  }

  method NoteChanges(undo0: UndoRecord, changes: Changes, accounts: Accounts) returns (undo: UndoRecord)
    ensures undo == NoteAll(undo0, changes.Keys, accounts)
  {
    undo := undo0;
    var pending := changes.Keys;
    while pending != {}
      invariant pending <= changes.Keys
      invariant undo == NoteAll(undo0, changes.Keys - pending, accounts)
      decreases pending
    {
      var a :| a in pending;
      ghost var noted := changes.Keys - pending;
      pending := pending - {a};
      undo := Note(undo, a, accounts);
      assert changes.Keys - pending == noted + {a};
    }
    assert changes.Keys - {} == changes.Keys;
  }

  // `execute_sequentially`
  method ExecuteSequentially(evm: Evm, ctx: BlockCtx, limit: nat, state: WorldState, tagged: Tagged, order: seq<nat>)
    returns (block: ExecutedBlock)
    requires Positions(tagged, order)
    modifies state
    ensures Progress(state.accounts, block)
            == RunSequential(evm, ctx, limit, Progress(old(state.accounts), EMPTY_BLOCK), tagged, order)
  {
    block := EMPTY_BLOCK;
    ghost var goal := RunSequential(evm, ctx, limit, Progress(state.accounts, EMPTY_BLOCK), tagged, order);
    for i := 0 to |order|
      invariant goal == RunSequential(evm, ctx, limit, Progress(state.accounts, block), tagged, order[i..])
    {
      assert order[i..][1..] == order[i + 1..];
      var (miner, tx) := tagged[order[i]];
      if OverBudget(block, tx, limit) {
        block := block.(deferred := block.deferred + 1);
      } else {
        match Transact(evm, state.accounts, ctx, miner, tx)
        case Some(e) =>
          var undo := NoteChanges(block.undo, e.changes, state.accounts);
          state.Commit(e.changes);
          block := Record(block.(undo := undo), tx, e);
        case None =>
          block := block.(deferred := block.deferred + 1);
      }
    }
  }

  /* ---------- what the record says ---------- */

  // A transaction that executed, with its effect.
  type Trace = seq<(Tx, Effect)>

  function TotalGas(trace: Trace): nat {
    if trace == [] then 0 else TotalGas(trace[..|trace| - 1]) + trace[|trace| - 1].1.gasUsed
  }

  function Clamped64(n: nat): nat {
    if n > U64_MAX then U64_MAX else n
  }

  // The record lists exactly a trace: hashes and receipts in lockstep, cumulative
  // gas the prefix sums of gas used, everything else counted as deferred.
  ghost predicate Ledger(p: Progress, trace: Trace, considered: nat) {
    && p.block.executed == |trace| && p.block.executed + p.block.deferred == considered
    && |p.block.hashes| == |trace| && |p.block.receipts| == |trace|
    && p.block.gasUsed == Clamped64(TotalGas(trace))
    && (forall i {:trigger p.block.hashes[i]} :: 0 <= i < |trace| ==> p.block.hashes[i] == trace[i].0.hash)
    && forall i {:trigger p.block.receipts[i]} :: 0 <= i < |trace| ==> p.block.receipts[i] == ReceiptAt(trace, i)
  }

  // What the `i`th receipt of a trace says.
  function ReceiptAt(trace: Trace, i: nat): Receipt
    requires i < |trace|
  {
    Receipt(trace[i].1.success, Clamped64(TotalGas(trace[..i + 1])), trace[i].1.logs)
  }

  lemma RecordExtendsLedger(p: Progress, q: Progress, trace: Trace, considered: nat, tx: Tx, e: Effect)
    requires Ledger(p, trace, considered)
    requires q.block == Record(p.block.(undo := q.block.undo), tx, e)
    ensures Ledger(q, trace + [(tx, e)], considered + 1)
  {
    var longer := trace + [(tx, e)];
    assert longer[..|trace|] == trace;
    assert longer[..|longer|] == longer;
    forall i | 0 <= i < |longer| ensures q.block.receipts[i] == ReceiptAt(longer, i) {
      if i < |trace| {
        assert longer[..i + 1] == trace[..i + 1];
      }
    }
  }

  lemma {:induction false} TotalGasConcat(a: Trace, b: Trace)
    ensures TotalGas(a + b) == TotalGas(a) + TotalGas(b)
    decreases |b|
  {
    if b == [] {
      assert a + b == a;
    } else {
      assert (a + b)[..|a + b| - 1] == a + b[..|b| - 1];
      TotalGasConcat(a, b[..|b| - 1]);
    }
  }

  lemma ReceiptAfter(trace: Trace, more: Trace, i: nat)
    requires i < |trace + more|
    ensures ReceiptAt(trace + more, i) ==
            if i < |trace| then ReceiptAt(trace, i)
            else
              var receipt := ReceiptAt(more, i - |trace|);
              receipt.(cumulativeGas := Add64(Clamped64(TotalGas(trace)), receipt.cumulativeGas))
  {
    var all := trace + more;
    if i < |trace| {
      assert all[..i + 1] == trace[..i + 1];
    } else {
      assert all[..i + 1] == trace + more[..i - |trace| + 1];
      TotalGasConcat(trace, more[..i - |trace| + 1]);
    }
  }

  // A round's progress from an empty record, its record absorbed into the block's.
  function Rejoined(base: ExecutedBlock, p: Progress): Progress {
    Progress(p.accounts, Absorb(base, p.block))
  }

  // Rebasing makes an absorbed round's ledger the continuation of the block's.
  lemma AbsorbConcatenatesLedgers(p: Progress, q: Progress, trace: Trace, more: Trace, m: nat, n: nat)
    requires Ledger(p, trace, m) && Ledger(q, more, n)
    ensures Ledger(Rejoined(p.block, q), trace + more, m + n)
  {
    var all := trace + more;
    TotalGasConcat(trace, more);
    forall i | 0 <= i < |all| ensures Absorb(p.block, q.block).receipts[i] == ReceiptAt(all, i) {
      ReceiptAfter(trace, more, i);
    }
  }

  // What one step executes, if anything.
  function StepTrace(evm: Evm, ctx: BlockCtx, limit: nat, p: Progress, miner: Address, tx: Tx): Trace {
    var e := Transact(evm, p.accounts, ctx, miner, tx);
    if OverBudget(p.block, tx, limit) || e.None? then [] else [(tx, e.value)]
  }

  // The transactions a sequential run executes, with their effects.
  function TraceSequential(evm: Evm, ctx: BlockCtx, limit: nat, p: Progress, tagged: Tagged, order: seq<nat>): Trace
    requires Positions(tagged, order)
    decreases |order|
  {
    if order == [] then [] else
      var (miner, tx) := tagged[order[0]];
      StepTrace(evm, ctx, limit, p, miner, tx)
      + TraceSequential(evm, ctx, limit, Step(evm, ctx, limit, p, miner, tx), tagged, order[1..])
  }

  lemma StepLedger(evm: Evm, ctx: BlockCtx, limit: nat, p: Progress, miner: Address, tx: Tx, trace: Trace,
      considered: nat)
    requires Ledger(p, trace, considered)
    ensures Ledger(Step(evm, ctx, limit, p, miner, tx), trace + StepTrace(evm, ctx, limit, p, miner, tx), considered + 1)
  {
    var e := Transact(evm, p.accounts, ctx, miner, tx);
    if OverBudget(p.block, tx, limit) || e.None? {
      assert trace + [] == trace;
    } else {
      RecordExtendsLedger(p, Step(evm, ctx, limit, p, miner, tx), trace, considered, tx, e.value);
    }
  }

  lemma EmptyLedger(p: Progress, trace: Trace)
    requires p.block == EMPTY_BLOCK && trace == []
    ensures Ledger(p, trace, 0)
  {
  }

  // A sequentially executed block's record is the ledger of what the run
  // executed: receipts and hashes in lockstep, cumulative gas the prefix sums,
  // executed plus deferred all it was given.
  lemma {:induction false} SequentialLedger(evm: Evm, ctx: BlockCtx, limit: nat, p: Progress, tagged: Tagged,
      order: seq<nat>, trace: Trace, considered: nat)
    requires Positions(tagged, order) && Ledger(p, trace, considered)
    ensures Ledger(RunSequential(evm, ctx, limit, p, tagged, order),
                   trace + TraceSequential(evm, ctx, limit, p, tagged, order), considered + |order|)
    decreases |order|
  {
    if order == [] {
      assert trace + [] == trace;
    } else {
      var (miner, tx) := tagged[order[0]];
      var p' := Step(evm, ctx, limit, p, miner, tx);
      var first := StepTrace(evm, ctx, limit, p, miner, tx);
      StepLedger(evm, ctx, limit, p, miner, tx, trace, considered);
      SequentialLedger(evm, ctx, limit, p', tagged, order[1..], trace + first, considered + 1);
      var tail := TraceSequential(evm, ctx, limit, p', tagged, order[1..]);
      assert trace + first + tail == trace + (first + tail);
    }
  }

  /* ---------- what was executed is what was given ---------- */

  function TxsOf(trace: Trace): (r: seq<Tx>)
    ensures |r| == |trace| && forall i :: 0 <= i < |r| ==> r[i] == trace[i].0
  {
    seq(|trace|, i requires 0 <= i < |trace| => trace[i].0)
  }

  function TxsAt(tagged: Tagged, order: seq<nat>): (r: seq<Tx>)
    requires Positions(tagged, order)
    ensures |r| == |order| && forall i :: 0 <= i < |r| ==> r[i] == tagged[order[i]].1
  {
    seq(|order|, i requires 0 <= i < |order| => tagged[order[i]].1)
  }

  // A trace executes some of the given transactions, each where it was given.
  ghost predicate Drawn(trace: Trace, tagged: Tagged, order: seq<nat>)
    requires Positions(tagged, order)
  {
    Within(TxsOf(trace), TxsAt(tagged, order))
  }

  lemma DrawnFirst(first: Trace, rest: Trace, tagged: Tagged, order: seq<nat>)
    requires Positions(tagged, order) && order != [] && Drawn(rest, tagged, order[1..])
    requires first == [] || (|first| == 1 && first[0].0 == tagged[order[0]].1)
    ensures Drawn(first + rest, tagged, order)
  {
    var given := TxsAt(tagged, order);
    assert given[1..] == TxsAt(tagged, order[1..]);
    if first == [] {
      assert first + rest == rest;
    } else {
      assert TxsOf(first + rest)[1..] == TxsOf(rest);
    }
  }

  lemma {:induction false} SequentialDrawn(evm: Evm, ctx: BlockCtx, limit: nat, p: Progress, tagged: Tagged,
      order: seq<nat>)
    requires Positions(tagged, order)
    ensures Drawn(TraceSequential(evm, ctx, limit, p, tagged, order), tagged, order)
    decreases |order|
  {
    if order != [] {
      var (miner, tx) := tagged[order[0]];
      var p' := Step(evm, ctx, limit, p, miner, tx);
      SequentialDrawn(evm, ctx, limit, p', tagged, order[1..]);
      DrawnFirst(StepTrace(evm, ctx, limit, p, miner, tx), TraceSequential(evm, ctx, limit, p', tagged, order[1..]),
          tagged, order);
    }
  }

  // Of transactions with different hashes, each executed one was given and is
  // executed once.
  lemma DrawnOnce(trace: Trace, tagged: Tagged, order: seq<nat>)
    requires Positions(tagged, order) && Drawn(trace, tagged, order) && DistinctHashes(tagged, order)
    ensures forall i :: 0 <= i < |trace| ==> exists n :: 0 <= n < |order| && trace[i].0 == tagged[order[n]].1
    ensures forall i, j :: 0 <= i < j < |trace| ==> trace[i].0.hash != trace[j].0.hash
  {
    var given, done := TxsAt(tagged, order), TxsOf(trace);
    WithinOnce(done, given);
    forall i | 0 <= i < |trace| ensures exists n :: 0 <= n < |order| && trace[i].0 == tagged[order[n]].1 {
      assert done[i] in given;
      var n := IndexOf(given, done[i]);
    }
    forall i, j | 0 <= i < j < |trace| ensures trace[i].0.hash != trace[j].0.hash {
      assert done[i] in given && done[j] in given && done[i] != done[j];
      var m := IndexOf(given, done[i]);
      var n := IndexOf(given, done[j]);
    }
  }

  /* ---------- how often a hash is recorded ---------- */

  function Recorded(block: ExecutedBlock, hash: nat): nat {
    multiset(block.hashes)[hash]
  }

  ghost predicate Carries(tagged: Tagged, order: seq<nat>, hash: nat)
    requires Positions(tagged, order)
  {
    exists i :: 0 <= i < |order| && tagged[order[i]].1.hash == hash
  }

  lemma CarriesCons(tagged: Tagged, order: seq<nat>, hash: nat)
    requires Positions(tagged, order) && order != []
    ensures Carries(tagged, order, hash) <==> tagged[order[0]].1.hash == hash || Carries(tagged, order[1..], hash)
  {
    if Carries(tagged, order[1..], hash) {
      var i :| 0 <= i < |order[1..]| && tagged[order[1..][i]].1.hash == hash;
      assert order[i + 1] == order[1..][i];
    }
    if Carries(tagged, order, hash) && tagged[order[0]].1.hash != hash {
      var i :| 0 <= i < |order| && tagged[order[i]].1.hash == hash;
      assert order[1..][i - 1] == order[i];
    }
  }

  lemma FirstIsAlone(tagged: Tagged, order: seq<nat>)
    requires Positions(tagged, order) && order != [] && DistinctHashes(tagged, order)
    ensures !Carries(tagged, order[1..], tagged[order[0]].1.hash) && DistinctHashes(tagged, order[1..])
  {
    assert forall i :: 0 <= i < |order| - 1 ==> order[1..][i] == order[i + 1];
  }

  // Recording a transaction counts its hash once and no other.
  lemma RecordCounts(block: ExecutedBlock, tx: Tx, e: Effect, hash: nat)
    ensures Recorded(Record(block, tx, e), hash) == Recorded(block, hash) + if tx.hash == hash then 1 else 0
  {
  }

  // A run records no hash it was not given.
  lemma {:induction false} SequentialCounts(evm: Evm, ctx: BlockCtx, limit: nat, p: Progress, tagged: Tagged,
      order: seq<nat>, hash: nat)
    requires Positions(tagged, order) && !Carries(tagged, order, hash)
    ensures Recorded(RunSequential(evm, ctx, limit, p, tagged, order).block, hash) == Recorded(p.block, hash)
    decreases |order|
  {
    if order != [] {
      CarriesCons(tagged, order, hash);
      var (miner, tx) := tagged[order[0]];
      SequentialCounts(evm, ctx, limit, Step(evm, ctx, limit, p, miner, tx), tagged, order[1..], hash);
    }
  }

  // The undo record covers the whole run, so undoing restores the start exactly.
  lemma CommitKeepsCover(before: Accounts, p: Progress, tx: Tx, e: Effect)
    requires Covers(before, p.accounts, p.block.undo)
    ensures Covers(before, Commit(p, tx, e).accounts, Commit(p, tx, e).block.undo)
  {
    var next := Committed(p.accounts, e.changes);
    forall a | a !in e.changes.Keys ensures Get(next, a) == Get(p.accounts, a) {
      CommittedAt(p.accounts, e.changes, a);
    }
    NotedChangesCover(before, p.accounts, next, p.block.undo, e.changes.Keys);
  }

  lemma {:induction false} SequentialCovers(evm: Evm, ctx: BlockCtx, limit: nat, before: Accounts, p: Progress,
      tagged: Tagged, order: seq<nat>)
    requires Positions(tagged, order) && Covers(before, p.accounts, p.block.undo)
    ensures var q := RunSequential(evm, ctx, limit, p, tagged, order); Covers(before, q.accounts, q.block.undo)
    decreases |order|
  {
    if order != [] {
      var (miner, tx) := tagged[order[0]];
      var e := Transact(evm, p.accounts, ctx, miner, tx);
      if !OverBudget(p.block, tx, limit) && e.Some? {
        CommitKeepsCover(before, p, tx, e.value);
      }
      SequentialCovers(evm, ctx, limit, before, Step(evm, ctx, limit, p, miner, tx), tagged, order[1..]);
    }
  }
}
