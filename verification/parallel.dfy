// Speculative rounds: every transaction of a round runs on the pre-round state,
// conflicts are looked for, and the round is committed or run again in order.
module Parallel {
  import opened Blocks
  import opened Compact
  import opened WorldStates
  import opened Journal
  import opened Execution

  datatype Speculation = Speculation(
    index: nat,
    result: Option<Effect>,
    diff: Changes,
    readSet: set<Address>,
    writes: set<Address>,
    feeCredit: nat,
    touchedBeneficiary: bool)

  function SaturatedFee(a: nat, b: nat): U256 {
    if Fee(a, b) > U256_MAX then U256_MAX else Fee(a, b)
  }

  // The fee the speculation expects the beneficiary to have been paid.
  function ExpectedFee(ctx: BlockCtx, tx: Tx, gasUsed: nat): U256 {
    var above := if tx.maxFee > ctx.baseFee then tx.maxFee - ctx.baseFee else 0;
    var cap := if tx.maxPriority.Some? then tx.maxPriority.value else 0;
    SaturatedFee(if cap < above then cap else above, gasUsed)
  }

  // The beneficiary's entry differs from its account by the expected fee alone.
  predicate OnlyFee(prior: Option<AccountState>, entry: Change, fee: nat) {
    && entry.storage == map[]
    && entry.info.nonce == InfoOf(prior).nonce && entry.info.code == InfoOf(prior).code
    && entry.info.balance == Add256(InfoOf(prior).balance, fee)
  }

  // `speculate_one`
  function SpeculateOne(evm: Evm, s: Accounts, ctx: BlockCtx, index: nat, miner: Address, tx: Tx): Speculation {
    match Transact(evm, s, ctx, miner, tx)
    case None => Speculation(index, None, map[], {}, {}, 0, false)
    case Some(e) =>
      var fee := ExpectedFee(ctx, tx, e.gasUsed);
      if miner in e.changes && OnlyFee(Get(s, miner), e.changes[miner], fee) then
        Speculation(index, Some(e), e.changes - {miner}, e.readSet, e.changes.Keys - {miner}, fee, false)
      else
        Speculation(index, Some(e), e.changes, e.readSet, e.changes.Keys, 0, miner in e.changes)
  }

  // `speculate`: results in round order, whatever the threads did.
  function Speculate(evm: Evm, s: Accounts, ctx: BlockCtx, tagged: Tagged, layer: seq<nat>): (r: seq<Speculation>)
    requires Positions(tagged, layer)
    ensures |r| == |layer|
  {
    seq(|layer|, i requires 0 <= i < |layer| => SpeculateOne(evm, s, ctx, i, tagged[layer[i]].0, tagged[layer[i]].1))
  }

  datatype RoundConflict =
    | Overlap(earlier: nat, later: nat, account: Address)
    | BeneficiaryTouched(index: nat)

  // Nothing written by an earlier speculation is read or written by a later one,
  // and none touched its beneficiary beyond the fee.
  predicate Independent(specs: seq<Speculation>) {
    && (forall i :: 0 <= i < |specs| ==> !specs[i].touchedBeneficiary)
    && forall i, j :: 0 <= i < j < |specs| ==> specs[i].writes !! specs[j].readSet + specs[j].writes
  }

  // `validate`: a reported conflict is a conflict, and none is missed.
  method Validate(specs: seq<Speculation>) returns (conflict: Option<RoundConflict>)
    ensures conflict.None? <==> Independent(specs)
    ensures conflict.Some? ==>
      match conflict.value
      case BeneficiaryTouched(n) => exists i :: 0 <= i < |specs| && specs[i].touchedBeneficiary && specs[i].index == n
      case Overlap(m, n, a) => exists i, j :: 0 <= i < j < |specs| && specs[i].index == m && specs[j].index == n
                                && a in specs[i].writes && a in specs[j].readSet + specs[j].writes
  {
    for j := 0 to |specs|
      invariant Independent(specs[..j])
    {
      var later := specs[j];
      if later.touchedBeneficiary {
        return Some(BeneficiaryTouched(later.index));
      }
      for i := 0 to j
        invariant forall m :: 0 <= m < i ==> specs[m].writes !! later.readSet + later.writes
      {
        var shared := specs[i].writes * (later.readSet + later.writes);
        if shared != {} {
          var a :| a in shared;
          return Some(Overlap(specs[i].index, later.index, a));
        }
        assert forall a :: a in specs[i].writes && a in later.readSet + later.writes ==> a in shared;
      }
    }
    assert specs[..|specs|] == specs;
    return None;
  }

  /* ---------- committing a round ---------- */

  type Credits = seq<(Address, nat)>

  // One fee credit; a zero credit creates no account.
  function CreditOne(v: Option<AccountState>, fee: nat): Option<AccountState> {
    if fee == 0 then v else
      var account := if v.Some? then v.value else EMPTY_ACCOUNT;
      Some(account.(info := account.info.(balance := Add256(account.info.balance, fee))))
  }

  function ApplyCredits(s: Accounts, credits: Credits): Accounts
    decreases |credits|
  {
    if credits == [] then s
    else ApplyCredits(Put(s, credits[0].0, CreditOne(Get(s, credits[0].0), credits[0].1)), credits[1..])
  }

  function CommitSpeculated(p: Progress, miner: Address, tx: Tx, spec: Speculation): Progress
    requires spec.result.Some?
  {
    var undo := Note(NoteAll(p.block.undo, spec.diff.Keys, p.accounts), miner, p.accounts);
    Progress(Committed(p.accounts, spec.diff), Record(p.block.(undo := undo), tx, spec.result.value))
  }

  // The round's transactions under the running gas rule, fee credits set aside.
  function CommitRound(limit: nat, p: Progress, credited: Credits, tagged: Tagged, layer: seq<nat>,
      specs: seq<Speculation>): (Progress, Credits)
    requires Positions(tagged, layer) && |layer| == |specs|
    decreases |layer|
  {
    if layer == [] then (p, credited) else
      var (miner, tx) := tagged[layer[0]];
      if OverBudget(p.block, tx, limit) || specs[0].result.None? then
        CommitRound(limit, Defer(p), credited, tagged, layer[1..], specs[1..])
      else
        CommitRound(limit, CommitSpeculated(p, miner, tx, specs[0]), credited + [(miner, specs[0].feeCredit)],
                    tagged, layer[1..], specs[1..])
  }

  function CommitAll(limit: nat, p: Progress, tagged: Tagged, layer: seq<nat>, specs: seq<Speculation>): Progress
    requires Positions(tagged, layer) && |layer| == |specs|
  {
    var (q, credited) := CommitRound(limit, p, [], tagged, layer, specs);
    q.(accounts := ApplyCredits(q.accounts, credited))
  }

  // A conflicting round runs again in order, in a fresh record that is absorbed.
  function Fallback(evm: Evm, ctx: BlockCtx, limit: nat, p: Progress, tagged: Tagged, layer: seq<nat>): Progress
    requires Positions(tagged, layer)
  {
    var q := RunSequential(evm, ctx, limit, Progress(p.accounts, EMPTY_BLOCK), tagged, layer);
    Progress(q.accounts, Absorb(p.block, q.block))
  }

  function RunRound(evm: Evm, ctx: BlockCtx, limit: nat, p: Progress, tagged: Tagged, layer: seq<nat>): Progress
    requires Positions(tagged, layer)
  {
    var specs := Speculate(evm, p.accounts, ctx, tagged, layer);
    if Independent(specs) then CommitAll(limit, p, tagged, layer, specs) else Fallback(evm, ctx, limit, p, tagged, layer)
  }

  predicate AllPositions(tagged: Tagged, layers: seq<seq<nat>>) {
    forall n :: 0 <= n < |layers| ==> Positions(tagged, layers[n])
  }

  // `execute_rounds_parallel`
  function RunParallel(evm: Evm, ctx: BlockCtx, limit: nat, p: Progress, tagged: Tagged,
      layers: seq<seq<nat>>): Progress
    requires AllPositions(tagged, layers)
    decreases |layers|
  {
    if layers == [] then p
    else RunParallel(evm, ctx, limit, RunRound(evm, ctx, limit, p, tagged, layers[0]), tagged, layers[1..])
  }

  method ExecuteRoundsParallel(evm: Evm, ctx: BlockCtx, limit: nat, state: WorldState, tagged: Tagged,
      layers: seq<seq<nat>>)
    returns (block: ExecutedBlock, parallelRounds: nat, fallbackRounds: nat)
    requires AllPositions(tagged, layers)
    modifies state
    ensures Progress(state.accounts, block)
            == RunParallel(evm, ctx, limit, Progress(old(state.accounts), EMPTY_BLOCK), tagged, layers)
    ensures parallelRounds + fallbackRounds == |layers|
  {
    block, parallelRounds, fallbackRounds := EMPTY_BLOCK, 0, 0;
    ghost var goal := RunParallel(evm, ctx, limit, Progress(state.accounts, EMPTY_BLOCK), tagged, layers);
    for n := 0 to |layers|
      invariant goal == RunParallel(evm, ctx, limit, Progress(state.accounts, block), tagged, layers[n..])
      invariant parallelRounds + fallbackRounds == n
    {
      assert layers[n..][1..] == layers[n + 1..];
      var layer := layers[n];
      var specs := Speculate(evm, state.accounts, ctx, tagged, layer);
      var conflict := Validate(specs);
      if conflict.Some? {
        fallbackRounds := fallbackRounds + 1;
        var sequential := ExecuteSequentially(evm, ctx, limit, state, tagged, layer);
        block := Absorb(block, sequential);
      } else {
        parallelRounds := parallelRounds + 1;
        block := CommitSpeculations(limit, state, block, tagged, layer, specs);
      }
    }
  }

  method CommitSpeculations(limit: nat, state: WorldState, block0: ExecutedBlock, tagged: Tagged, layer: seq<nat>,
      specs: seq<Speculation>)
    returns (block: ExecutedBlock)
    requires Positions(tagged, layer) && |layer| == |specs|
    modifies state
    ensures Progress(state.accounts, block)
            == CommitAll(limit, Progress(old(state.accounts), block0), tagged, layer, specs)
  {
    block := block0;
    var credited: Credits := [];
    ghost var goal := CommitRound(limit, Progress(state.accounts, block0), [], tagged, layer, specs);
    for i := 0 to |layer|
      invariant goal == CommitRound(limit, Progress(state.accounts, block), credited, tagged, layer[i..], specs[i..])
    {
      assert layer[i..][1..] == layer[i + 1..] && specs[i..][1..] == specs[i + 1..];
      var (miner, tx) := tagged[layer[i]];
      if OverBudget(block, tx, limit) || specs[i].result.None? {
        block := block.(deferred := block.deferred + 1);
      } else {
        var undo := NoteChanges(block.undo, specs[i].diff, state.accounts);
        undo := Note(undo, miner, state.accounts);
        credited := credited + [(miner, specs[i].feeCredit)];
        block := Record(block.(undo := undo), tx, specs[i].result.value);
        state.Commit(specs[i].diff);
      }
    }
    PayCredits(state, credited);
  }

  method PayCredits(state: WorldState, credited: Credits)
    modifies state
    ensures state.accounts == ApplyCredits(old(state.accounts), credited)
  {
    ghost var goal := ApplyCredits(state.accounts, credited);
    for i := 0 to |credited|
      invariant goal == ApplyCredits(state.accounts, credited[i..])
    {
      assert credited[i..][1..] == credited[i + 1..];
      var (miner, credit) := credited[i];
      if credit != 0 {
        var account := if miner in state.accounts then state.accounts[miner] else EMPTY_ACCOUNT;
        state.InsertAccount(miner, account.(info := account.info.(balance := Add256(account.info.balance, credit))));
      } else {
        SameAccounts(Put(state.accounts, miner, Get(state.accounts, miner)), state.accounts);
      }
    }
  }
}
