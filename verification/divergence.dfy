// Concrete rounds whose parallel result is not the sequential one: the three ways a
// round can pass validation wrongly, and the restarted gas count.
module Divergences {
  import opened Blocks
  import opened Compact
  import opened WorldStates
  import opened Execution
  import opened Parallel
  import opened SpeculativeCommit
  import opened ParallelBlock

  // An EVM in which transaction 2 needs its sender, account 7, to hold funds.
  function FundsCheck(s: Accounts, ctx: BlockCtx, miner: Address, tx: Tx): Option<Effect> {
    if tx.hash == 2 && InfoOf(Get(s, 7)).balance == 0 then None
    else Some(Effect(true, 1, 0, map[], {7}))
  }

  // An EVM in which every transaction logs the balance of account 7.
  function BalanceLog(s: Accounts, ctx: BlockCtx, miner: Address, tx: Tx): Option<Effect> {
    Some(Effect(true, 1, InfoOf(Get(s, 7)).balance, map[], {7}))
  }

  const DIVERGENT_CTX := BlockCtx(1, 0, 0, 100, 0)
  const PAYER := Tx(1, 1, [1], 10, 1, Some(1))
  const SPENDER := Tx(2, 7, [7], 10, 0, Some(0))
  const READER := Tx(2, 2, [2], 10, 0, Some(0))

  // The miner of the first transaction is account 7.
  function PaidRound(second: Tx): Tagged {
    [(7, PAYER), (8, second)]
  }

  lemma ExamplesAreFramed()
    ensures Framed(FundsCheck) && Framed(BalanceLog)
  {
    forall s, s', miner, tx, c | FundsCheck(s, c, miner, tx).Some? && SameOn(s, s', FundsCheck(s, c, miner, tx).value.readSet)
      ensures FundsCheck(s', c, miner, tx) == FundsCheck(s, c, miner, tx)
    {
      assert 7 in FundsCheck(s, c, miner, tx).value.readSet;
    }
    forall s, s', miner, tx, c | SameOn(s, s', BalanceLog(s, c, miner, tx).value.readSet)
      ensures BalanceLog(s', c, miner, tx) == BalanceLog(s, c, miner, tx)
    {
      assert 7 in BalanceLog(s, c, miner, tx).value.readSet;
    }
  }

  // Once the payer has run in order, account 7 holds its fee.
  lemma PayerPays(evm: Evm, p: Progress)
    requires evm == FundsCheck || evm == BalanceLog
    requires p == Progress(map[], EMPTY_BLOCK)
    ensures var q := Step(evm, DIVERGENT_CTX, 100, p, 7, PAYER); InfoOf(Get(q.accounts, 7)).balance == 1 && q.block.gasUsed == 1
  {
    var t := Transact(evm, p.accounts, DIVERGENT_CTX, 7, PAYER);
    CommittedAt(p.accounts, t.value.changes, 7);
  }

  lemma TwoSteps(evm: Evm, p: Progress, second: Tx)
    ensures RunSequential(evm, DIVERGENT_CTX, 100, p, PaidRound(second), [0, 1])
            == Step(evm, DIVERGENT_CTX, 100, Step(evm, DIVERGENT_CTX, 100, p, 7, PAYER), 8, second)
  {
    assert [0, 1][1..] == [1] && [1][1..] == [];
  }

  lemma SpenderKept(p: Progress)
    requires p == Progress(map[], EMPTY_BLOCK)
    ensures OwnEntriesKept(FundsCheck, p.accounts, DIVERGENT_CTX, PaidRound(SPENDER), [0, 1])
  {
    var specs := Speculate(FundsCheck, p.accounts, DIVERGENT_CTX, PaidRound(SPENDER), [0, 1]);
    HonestOwnEntry(FundsCheck, p.accounts, DIVERGENT_CTX, 0, 7, PAYER);
    HonestOwnEntry(FundsCheck, p.accounts, DIVERGENT_CTX, 1, 8, SPENDER);
    assert specs[0] == SpeculateOne(FundsCheck, p.accounts, DIVERGENT_CTX, 0, 7, PAYER);
    assert specs[1] == SpeculateOne(FundsCheck, p.accounts, DIVERGENT_CTX, 1, 8, SPENDER);
  }

  lemma SpenderSleeps(p: Progress)
    requires p == Progress(map[], EMPTY_BLOCK)
    ensures var specs := Speculate(FundsCheck, p.accounts, DIVERGENT_CTX, PaidRound(SPENDER), [0, 1]);
      && Committable(FundsCheck, p.accounts, DIVERGENT_CTX, PaidRound(SPENDER), [0, 1])
      && LooksApart(FundsCheck, p.accounts, DIVERGENT_CTX, 100, p, [], PaidRound(SPENDER), [0, 1], specs)
  {
    ExamplesAreFramed();
    SpenderKept(p);
    assert [0, 1][1..] == [1] && [1][1..] == [];
    var specs := Speculate(FundsCheck, p.accounts, DIVERGENT_CTX, PaidRound(SPENDER), [0, 1]);
    assert specs[0].result.Some? && !specs[0].touchedBeneficiary && specs[1].result.None?;
  }

  lemma SpenderAwakes(p: Progress)
    requires p == Progress(map[], EMPTY_BLOCK)
    ensures !NoneAwakes(FundsCheck, p.accounts, DIVERGENT_CTX, 100, p, PaidRound(SPENDER), [0, 1])
  {
    PayerPays(FundsCheck, p);
    var q := Step(FundsCheck, DIVERGENT_CTX, 100, p, 7, PAYER);
    assert [0, 1][1..] == [1];
    assert !NoneAwakes(FundsCheck, p.accounts, DIVERGENT_CTX, 100, q, PaidRound(SPENDER), [1]);
  }

  // Validation passes, yet the committed round is not the sequential one: the
  // second transaction is executable only once the first has paid its sender.
  lemma ValidatedRoundCanDiverge(p: Progress)
    requires p == Progress(map[], EMPTY_BLOCK)
    ensures Framed(FundsCheck)
    ensures Independent(Speculate(FundsCheck, p.accounts, DIVERGENT_CTX, PaidRound(SPENDER), [0, 1]))
    ensures RunRound(FundsCheck, DIVERGENT_CTX, 100, p, PaidRound(SPENDER), [0, 1])
            != RunSequential(FundsCheck, DIVERGENT_CTX, 100, p, PaidRound(SPENDER), [0, 1])
  {
    SpenderSleeps(p);
    SpenderAwakes(p);
    AwakeningDecides(FundsCheck, DIVERGENT_CTX, 100, p, PaidRound(SPENDER), [0, 1]);
  }

  // So it is when every transaction is executable from the start, and one reads
  // an account another credits: its receipt is not the sequential one.
  lemma ValidatedRoundCanMisread(p: Progress)
    requires p == Progress(map[], EMPTY_BLOCK)
    ensures Framed(BalanceLog)
    ensures Independent(Speculate(BalanceLog, p.accounts, DIVERGENT_CTX, PaidRound(READER), [0, 1]))
    ensures NoneAwakes(BalanceLog, p.accounts, DIVERGENT_CTX, 100, p, PaidRound(READER), [0, 1])
    ensures RunRound(BalanceLog, DIVERGENT_CTX, 100, p, PaidRound(READER), [0, 1]).block.receipts
            == [Receipt(true, 1, 0), Receipt(true, 2, 0)]
    ensures RunSequential(BalanceLog, DIVERGENT_CTX, 100, p, PaidRound(READER), [0, 1]).block.receipts
            == [Receipt(true, 1, 0), Receipt(true, 2, 1)]
  {
    ExamplesAreFramed();
    PayerPays(BalanceLog, p);
    TwoSteps(BalanceLog, p, READER);
    AllExecutableNoneAwakes(BalanceLog, p.accounts, DIVERGENT_CTX, 100, p, PaidRound(READER), [0, 1]);
    MisreadCommit(p);
  }

  lemma MisreadCommit(p: Progress)
    requires p == Progress(map[], EMPTY_BLOCK)
    ensures Independent(Speculate(BalanceLog, p.accounts, DIVERGENT_CTX, PaidRound(READER), [0, 1]))
    ensures RunRound(BalanceLog, DIVERGENT_CTX, 100, p, PaidRound(READER), [0, 1]).block.receipts
            == [Receipt(true, 1, 0), Receipt(true, 2, 0)]
  {
    var tagged := PaidRound(READER);
    var specs := Speculate(BalanceLog, p.accounts, DIVERGENT_CTX, tagged, [0, 1]);
    assert specs[0].result.Some? && !specs[0].touchedBeneficiary && specs[0].writes == {};
    assert specs[1].result.Some? && !specs[1].touchedBeneficiary;
    assert [0, 1][1..] == [1] && [1][1..] == [] && specs[1..][0] == specs[1] && specs[1..][1..] == [];
    var c := CommitSpeculated(p, 7, PAYER, specs[0]);
    var d := CommitSpeculated(c, 8, READER, specs[1]);
    assert CommitRound(100, c, [] + [(7, specs[0].feeCredit)], tagged, [1], specs[1..]).0 == d;
  }

  /* ---------- the beneficiary's own entry ---------- */

  // A validated round of one transaction equals running it, exactly unless the
  // transaction fits and splitting the fee off its beneficiary's entry loses
  // something.
  lemma OwnEntryDecides(evm: Evm, ctx: BlockCtx, limit: nat, p: Progress, tagged: Tagged, layer: seq<nat>, i: nat)
    requires i < |tagged| && layer == [i] && Independent(Speculate(evm, p.accounts, ctx, tagged, layer))
    ensures RunRound(evm, ctx, limit, p, tagged, layer) == RunSequential(evm, ctx, limit, p, tagged, layer)
            <==> OverBudget(p.block, tagged[i].1, limit)
                 || OwnEntryKept(evm, p.accounts, ctx, tagged[i].0, tagged[i].1, Speculate(evm, p.accounts, ctx, tagged, layer)[0])
  {
    var (miner, tx) := tagged[i];
    var spec := Speculate(evm, p.accounts, ctx, tagged, layer)[0];
    assert !spec.touchedBeneficiary && Speculate(evm, p.accounts, ctx, tagged, layer) == [spec];
    OneSequential(evm, ctx, limit, p, tagged, layer, i);
    if OverBudget(p.block, tx, limit) || spec.result.None? {
      OneDeferred(limit, p, tagged, layer, i, spec);
    } else {
      OneCommitted(limit, p, tagged, layer, i, spec);
      SplitCommit(p, miner, tx, Transact(evm, p.accounts, ctx, miner, tx).value, spec);
    }
  }

  lemma OneDeferred(limit: nat, p: Progress, tagged: Tagged, layer: seq<nat>, i: nat, spec: Speculation)
    requires i < |tagged| && layer == [i] && (spec.result.None? || OverBudget(p.block, tagged[i].1, limit))
    ensures CommitAll(limit, p, tagged, layer, [spec]) == Defer(p)
  {
    assert layer[1..] == [] && [spec][1..] == [];
    assert CommitRound(limit, p, [], tagged, layer, [spec]) == CommitRound(limit, Defer(p), [], tagged, layer[1..], [spec][1..]);
  }

  lemma OneSequential(evm: Evm, ctx: BlockCtx, limit: nat, p: Progress, tagged: Tagged, layer: seq<nat>, i: nat)
    requires i < |tagged| && layer == [i]
    ensures RunSequential(evm, ctx, limit, p, tagged, layer) == Step(evm, ctx, limit, p, tagged[i].0, tagged[i].1)
  {
    assert layer[1..] == [];
  }

  lemma OneCommitted(limit: nat, p: Progress, tagged: Tagged, layer: seq<nat>, i: nat, spec: Speculation)
    requires i < |tagged| && layer == [i] && spec.result.Some? && !OverBudget(p.block, tagged[i].1, limit)
    ensures var q := CommitSpeculated(p, tagged[i].0, tagged[i].1, spec);
      CommitAll(limit, p, tagged, layer, [spec])
      == q.(accounts := Put(q.accounts, tagged[i].0, CreditOne(Get(q.accounts, tagged[i].0), spec.feeCredit)))
  {
    var (miner, tx) := tagged[i];
    var q, credit := CommitSpeculated(p, miner, tx, spec), [(miner, spec.feeCredit)];
    assert layer[1..] == [] && [spec][1..] == [] && [] + credit == credit && credit[1..] == [];
    assert CommitRound(limit, p, [], tagged, layer, [spec]) == CommitRound(limit, q, [] + credit, tagged, layer[1..], [spec][1..]);
    assert CommitRound(limit, q, credit, tagged, [], []) == (q, credit);
    assert ApplyCredits(q.accounts, credit)
        == ApplyCredits(Put(q.accounts, miner, CreditOne(Get(q.accounts, miner), spec.feeCredit)), credit[1..]);
  }

  lemma SplitCommit(p: Progress, miner: Address, tx: Tx, t: Effect, spec: Speculation)
    requires miner in t.changes && spec.diff == t.changes - {miner} && spec.result == Some(t)
    ensures var q := CommitSpeculated(p, miner, tx, spec);
      q.(accounts := Put(q.accounts, miner, CreditOne(Get(q.accounts, miner), spec.feeCredit))) == Commit(p, tx, t)
      <==> CommitOne(Get(p.accounts, miner), t.changes[miner]) == CreditOne(Get(p.accounts, miner), spec.feeCredit)
  {
    var q := CommitSpeculated(p, miner, tx, spec);
    var credited := Put(q.accounts, miner, CreditOne(Get(q.accounts, miner), spec.feeCredit));
    UndoAgrees(p.block.undo, t.changes.Keys, spec.diff.Keys, miner, p.accounts, p.accounts);
    CommittedAt(p.accounts, spec.diff, miner);
    CommittedAt(p.accounts, t.changes, miner);
    assert q.block == Commit(p, tx, t).block;
    if CommitOne(Get(p.accounts, miner), t.changes[miner]) == CreditOne(Get(p.accounts, miner), spec.feeCredit) {
      forall a ensures Get(credited, a) == Get(Commit(p, tx, t).accounts, a) {
        CommittedAt(p.accounts, spec.diff, a);
        CommittedAt(p.accounts, t.changes, a);
      }
      SameAccounts(credited, Commit(p, tx, t).accounts);
    } else {
      assert Get(credited, miner) != Get(Commit(p, tx, t).accounts, miner);
    }
  }

  // An EVM whose transactions destroy account 7 and leave its entry otherwise as it
  // was: framed, but not what the flags of a real one can say.
  function Destroyer(s: Accounts, ctx: BlockCtx, miner: Address, tx: Tx): Option<Effect> {
    Some(Effect(true, 1, 0, map[7 := Change(true, true, false, Get(s, 7).None?, InfoOf(Get(s, 7)), map[])], {7}))
  }

  // The third way: validation does not look at the flags of the beneficiary's
  // entry, so its destruction is split off as a fee.
  lemma ValidatedRoundCanSpare(p: Progress, account: AccountState)
    requires p == Progress(map[7 := account], EMPTY_BLOCK) && account.info.balance < U256_MAX
    ensures Framed(Destroyer) && !HonestFlags(Destroyer)
    ensures Independent(Speculate(Destroyer, p.accounts, DIVERGENT_CTX, [(7, PAYER)], [0]))
    ensures 7 in RunRound(Destroyer, DIVERGENT_CTX, 100, p, [(7, PAYER)], [0]).accounts
    ensures 7 !in RunSequential(Destroyer, DIVERGENT_CTX, 100, p, [(7, PAYER)], [0]).accounts
  {
    forall s: Accounts, s': Accounts, c: BlockCtx, miner: Address, tx: Tx
      | SameOn(s, s', Destroyer(s, c, miner, tx).value.readSet)
      ensures Destroyer(s', c, miner, tx) == Destroyer(s, c, miner, tx)
    {
      assert 7 in Destroyer(s, c, miner, tx).value.readSet;
    }
    var tagged, layer := [(7, PAYER)], [0];
    var spec := Speculate(Destroyer, p.accounts, DIVERGENT_CTX, tagged, layer)[0];
    var e := Destroyer(p.accounts, DIVERGENT_CTX, 7, PAYER);
    assert !HonestEntry(Get(p.accounts, 7), e.value.changes[7]);
    assert !spec.touchedBeneficiary && Speculate(Destroyer, p.accounts, DIVERGENT_CTX, tagged, layer) == [spec];
    OneSequential(Destroyer, DIVERGENT_CTX, 100, p, tagged, layer, 0);
    OneCommitted(100, p, tagged, layer, 0, spec);
    CommittedAt(p.accounts, Transact(Destroyer, p.accounts, DIVERGENT_CTX, 7, PAYER).value.changes, 7);
  }

  /* ---------- the restarted gas count ---------- */

  // An EVM whose transactions all write account 9.
  function Clasher(s: Accounts, ctx: BlockCtx, miner: Address, tx: Tx): Option<Effect> {
    Some(Effect(true, 1, 0, map[9 := Change(true, false, false, Get(s, 9).None?, InfoOf(Get(s, 9)), map[])], {9}))
  }

  // A round of two that clash falls back and starts its gas at zero, so both fit
  // where the block has no room left.
  lemma FallbackCanOverdraw(p: Progress)
    requires p == Progress(map[], EMPTY_BLOCK.(gasUsed := 95))
    ensures !Independent(Speculate(Clasher, p.accounts, DIVERGENT_CTX, PaidRound(READER), [0, 1]))
    ensures RunRound(Clasher, DIVERGENT_CTX, 100, p, PaidRound(READER), [0, 1])
            != RunSequential(Clasher, DIVERGENT_CTX, 100, p, PaidRound(READER), [0, 1])
  {
    var tagged, anew := PaidRound(READER), Progress(p.accounts, EMPTY_BLOCK);
    var specs := Speculate(Clasher, p.accounts, DIVERGENT_CTX, tagged, [0, 1]);
    assert 9 in specs[0].writes && 9 in specs[1].readSet;
    RejoinEmpty(p);
    assert Overdraws(Clasher, DIVERGENT_CTX, 100, p.block, anew, 7, PAYER);
    FallbackExact(Clasher, DIVERGENT_CTX, 100, p.block, anew, tagged, [0, 1]);
  }
}
