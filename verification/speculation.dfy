// When committing a validated round equals running it in order, and when it does not.
module SpeculativeCommit {
  import opened Blocks
  import opened WorldStates
  import opened Journal
  import opened Execution
  import opened Parallel

  /* ---------- fee credits ---------- */

  // What a list of credits leaves at one address.
  function CreditAt(v: Option<AccountState>, credits: Credits, a: Address): Option<AccountState>
    decreases |credits|
  {
    if credits == [] then v
    else CreditAt(if credits[0].0 == a then CreditOne(v, credits[0].1) else v, credits[1..], a)
  }

  lemma {:induction false} ApplyCreditsAt(s: Accounts, credits: Credits, a: Address)
    ensures Get(ApplyCredits(s, credits), a) == CreditAt(Get(s, a), credits, a)
    decreases |credits|
  {
    if credits != [] {
      ApplyCreditsAt(Put(s, credits[0].0, CreditOne(Get(s, credits[0].0), credits[0].1)), credits[1..], a);
    }
  }

  lemma {:induction false} CreditAtAppend(v: Option<AccountState>, credits: Credits, miner: Address, fee: nat,
      a: Address)
    ensures CreditAt(v, credits + [(miner, fee)], a)
            == if miner == a then CreditOne(CreditAt(v, credits, a), fee) else CreditAt(v, credits, a)
    decreases |credits|
  {
    if credits != [] {
      assert (credits + [(miner, fee)])[1..] == credits[1..] + [(miner, fee)];
      CreditAtAppend(if credits[0].0 == a then CreditOne(v, credits[0].1) else v, credits[1..], miner, fee, a);
    }
  }

  lemma {:induction false} CreditAtElsewhere(v: Option<AccountState>, credits: Credits, a: Address)
    requires forall c :: c in credits ==> c.0 != a || c.1 == 0
    ensures CreditAt(v, credits, a) == v
    decreases |credits|
  {
    if credits != [] {
      assert credits[0] in credits;
      CreditAtElsewhere(v, credits[1..], a);
    }
  }

  // Credits never lower a balance.
  lemma {:induction false} CreditsGrow(v: Option<AccountState>, credits: Credits, a: Address)
    ensures InfoOf(CreditAt(v, credits, a)).balance >= InfoOf(v).balance
    decreases |credits|
  {
    if credits != [] {
      CreditsGrow(if credits[0].0 == a then CreditOne(v, credits[0].1) else v, credits[1..], a);
    }
  }

  // Committing an unchanged-but-rewarded beneficiary is crediting it.
  lemma RewardIsCredit(prior: Option<AccountState>, changes: Changes, miner: Address, fee: nat)
    requires miner !in changes
    ensures CommitOne(prior, Rewarded(prior, changes, miner, fee)) == CreditOne(prior, fee)
  {
    if prior.Some? {
      assert Written(prior.value.storage, map[]) == prior.value.storage;
    } else {
      assert Written(map[], map[]) == map[];
    }
  }

  // Two fees that lift a balance equally lift every greater balance equally.
  lemma EqualFees(v: Option<AccountState>, low: nat, x: nat, y: nat)
    requires Add256(low, x) == Add256(low, y) && low <= InfoOf(v).balance
    ensures CreditOne(v, x) == CreditOne(v, y)
  {
  }

  /* ---------- the hypotheses ---------- */

  function Miner(tagged: Tagged, layer: seq<nat>, i: nat): Address
    requires Positions(tagged, layer) && i < |layer|
  {
    tagged[layer[i]].0
  }

  function TxAt(tagged: Tagged, layer: seq<nat>, i: nat): Tx
    requires Positions(tagged, layer) && i < |layer|
  {
    tagged[layer[i]].1
  }

  function Proper(evm: Evm, s: Accounts, ctx: BlockCtx, tagged: Tagged, layer: seq<nat>, i: nat): Option<Effect>
    requires Positions(tagged, layer) && i < |layer|
  {
    evm(s, ctx, Miner(tagged, layer, i), TxAt(tagged, layer, i))
  }

  // Splitting the fee off the beneficiary's entry loses nothing: crediting it leaves
  // what committing the whole entry leaves.
  predicate OwnEntryKept(evm: Evm, s: Accounts, ctx: BlockCtx, miner: Address, tx: Tx, spec: Speculation) {
    match Transact(evm, s, ctx, miner, tx)
    case None => true
    case Some(t) => CommitOne(Get(s, miner), t.changes[miner]) == CreditOne(Get(s, miner), spec.feeCredit)
  }

  ghost predicate OwnEntriesKept(evm: Evm, s: Accounts, ctx: BlockCtx, tagged: Tagged, layer: seq<nat>)
    requires Positions(tagged, layer)
  {
    var specs := Speculate(evm, s, ctx, tagged, layer);
    forall i {:trigger specs[i]} :: 0 <= i < |layer| ==>
      OwnEntryKept(evm, s, ctx, Miner(tagged, layer, i), TxAt(tagged, layer, i), specs[i])
  }

  // With honest flags it is so wherever validation lets the entry pass.
  lemma HonestOwnEntry(evm: Evm, s: Accounts, ctx: BlockCtx, index: nat, miner: Address, tx: Tx)
    requires HonestFlags(evm) && !SpeculateOne(evm, s, ctx, index, miner, tx).touchedBeneficiary
    ensures OwnEntryKept(evm, s, ctx, miner, tx, SpeculateOne(evm, s, ctx, index, miner, tx))
  {
    var e := evm(s, ctx, miner, tx);
    if e.Some? {
      var prior, changes, fee := Get(s, miner), e.value.changes, Fee(Tip(ctx, tx), e.value.gasUsed);
      var expected := ExpectedFee(ctx, tx, e.value.gasUsed);
      if miner in changes {
        assert HonestEntry(Get(s, miner), changes[miner]);
        HonestReward(prior, changes[miner].(touched := true), Rewarded(prior, changes, miner, fee), expected);
      } else {
        RewardIsCredit(prior, changes, miner, fee);
        EqualFees(prior, InfoOf(prior).balance, fee, expected);
      }
    }
  }

  lemma HonestReward(prior: Option<AccountState>, entry: Change, rewarded: Change, expected: nat)
    requires HonestEntry(prior, entry) && entry.touched && OnlyFee(prior, rewarded, expected)
    requires rewarded == entry.(info := entry.info.(balance := rewarded.info.balance))
    ensures CommitOne(prior, rewarded) == CreditOne(prior, expected)
  {
    if prior.Some? {
      assert Written(prior.value.storage, map[]) == prior.value.storage;
    } else {
      assert Written(map[], map[]) == map[];
    }
  }

  lemma HonestEntriesKept(evm: Evm, s: Accounts, ctx: BlockCtx, tagged: Tagged, layer: seq<nat>)
    requires HonestFlags(evm) && Positions(tagged, layer) && Independent(Speculate(evm, s, ctx, tagged, layer))
    ensures OwnEntriesKept(evm, s, ctx, tagged, layer)
  {
    var specs := Speculate(evm, s, ctx, tagged, layer);
    forall i | 0 <= i < |layer|
      ensures OwnEntryKept(evm, s, ctx, Miner(tagged, layer, i), TxAt(tagged, layer, i), specs[i])
    {
      assert !specs[i].touchedBeneficiary;
      HonestOwnEntry(evm, s, ctx, i, Miner(tagged, layer, i), TxAt(tagged, layer, i));
    }
  }

  // A round `validate` lets pass, of an EVM that keeps to what it reads.
  ghost predicate Committable(evm: Evm, s: Accounts, ctx: BlockCtx, tagged: Tagged, layer: seq<nat>) {
    && Framed(evm) && Positions(tagged, layer)
    && OwnEntriesKept(evm, s, ctx, tagged, layer)
    && Independent(Speculate(evm, s, ctx, tagged, layer))
  }

  // One step of a committed round.
  function CommitStep(limit: nat, p: Progress, credited: Credits, miner: Address, tx: Tx, spec: Speculation)
    : (Progress, Credits)
  {
    if OverBudget(p.block, tx, limit) || spec.result.None? then (Defer(p), credited)
    else (CommitSpeculated(p, miner, tx, spec), credited + [(miner, spec.feeCredit)])
  }

  // An effect looks at none of the accounts credited.
  predicate LooksAway(e: Effect, credited: Credits) {
    forall c :: c in credited && c.1 > 0 ==> c.0 !in e.readSet
  }

  // Along the committed round: what each executed transaction read before the
  // round holds no account that an earlier one credits.
  predicate LooksApart(evm: Evm, s: Accounts, ctx: BlockCtx, limit: nat, p: Progress, credited: Credits,
                       tagged: Tagged, layer: seq<nat>, specs: seq<Speculation>)
    requires Positions(tagged, layer) && |layer| == |specs|
    decreases |layer|
  {
    layer == [] ||
    var (miner, tx) := tagged[layer[0]];
    var (p', credited') := CommitStep(limit, p, credited, miner, tx, specs[0]);
    && (!OverBudget(p.block, tx, limit) && evm(s, ctx, miner, tx).Some? ==> LooksAway(evm(s, ctx, miner, tx).value, credited))
    && LooksApart(evm, s, ctx, limit, p', credited', tagged, layer[1..], specs[1..])
  }

  /* ---------- what each speculation holds ---------- */

  lemma SpeculationIsProper(evm: Evm, s: Accounts, ctx: BlockCtx, tagged: Tagged, layer: seq<nat>, i: nat)
    requires Committable(evm, s, ctx, tagged, layer) && i < |layer|
    ensures var spec := Speculate(evm, s, ctx, tagged, layer)[i];
      && (spec.result.Some? <==> Proper(evm, s, ctx, tagged, layer, i).Some?)
      && (spec.result.None? ==> spec.diff == map[] && spec.feeCredit == 0)
    ensures Proper(evm, s, ctx, tagged, layer, i).Some? ==>
      var e := Proper(evm, s, ctx, tagged, layer, i).value;
      var spec := Speculate(evm, s, ctx, tagged, layer)[i];
      var miner := Miner(tagged, layer, i);
      && spec.result.Some? && spec.diff == e.changes - {miner} && spec.writes == spec.diff.Keys
      && spec.readSet == e.readSet + {miner}
      && spec.result.value.success == e.success && spec.result.value.gasUsed == e.gasUsed && spec.result.value.logs == e.logs
      && CommitOne(Get(s, miner), Rewarded(Get(s, miner), e.changes, miner, Fee(Tip(ctx, TxAt(tagged, layer, i)), e.gasUsed)))
         == CreditOne(Get(s, miner), spec.feeCredit)
      && (miner !in e.changes ==>
            Add256(InfoOf(Get(s, miner)).balance, spec.feeCredit)
            == Add256(InfoOf(Get(s, miner)).balance, Fee(Tip(ctx, TxAt(tagged, layer, i)), e.gasUsed)))
  {
    var miner := Miner(tagged, layer, i);
    var spec := Speculate(evm, s, ctx, tagged, layer)[i];
    assert OwnEntryKept(evm, s, ctx, miner, TxAt(tagged, layer, i), spec);
    if Proper(evm, s, ctx, tagged, layer, i).Some? {
      var e := Proper(evm, s, ctx, tagged, layer, i).value;
      assert !spec.touchedBeneficiary;
      var all := WithReward(s, e.changes, miner, Fee(Tip(ctx, TxAt(tagged, layer, i)), e.gasUsed));
      assert all - {miner} == e.changes - {miner};
      assert all.Keys - {miner} == (e.changes - {miner}).Keys;
    }
  }

  // Nothing an earlier transaction writes is looked at by a later one.
  lemma WritesAreApart(evm: Evm, s: Accounts, ctx: BlockCtx, tagged: Tagged, layer: seq<nat>, j: nat, i: nat)
    requires Committable(evm, s, ctx, tagged, layer) && j < i < |layer|
    requires Proper(evm, s, ctx, tagged, layer, i).Some?
    ensures Speculate(evm, s, ctx, tagged, layer)[j].diff.Keys
            !! Proper(evm, s, ctx, tagged, layer, i).value.readSet + {Miner(tagged, layer, i)}
  {
    SpeculationIsProper(evm, s, ctx, tagged, layer, j);
    SpeculationIsProper(evm, s, ctx, tagged, layer, i);
    var specs := Speculate(evm, s, ctx, tagged, layer);
    assert specs[j].writes !! specs[i].readSet + specs[i].writes;
  }

  /* ---------- the two runs side by side ---------- */

  // After `i` transactions: `p` without its credits and the sequential `q` keep
  // the same record, and the credits are all that separates their accounts.
  ghost predicate Abreast(evm: Evm, s: Accounts, ctx: BlockCtx, tagged: Tagged, layer: seq<nat>, i: nat, p: Progress,
      credited: Credits, q: Progress)
    requires Committable(evm, s, ctx, tagged, layer) && i <= |layer|
  {
    var specs := Speculate(evm, s, ctx, tagged, layer);
    && p.block == q.block
    && (forall a :: Get(q.accounts, a) == CreditAt(Get(p.accounts, a), credited, a))
    && (forall a :: a !in p.block.undo ==> Get(p.accounts, a) == Get(s, a) && Get(q.accounts, a) == Get(s, a))
    && forall a :: Get(p.accounts, a) != Get(s, a) ==> exists j {:trigger specs[j]} :: 0 <= j < i && a in specs[j].diff
  }

  // The next transaction sees, in order, what it saw on the pre-round state.
  lemma SeesTheSame(evm: Evm, s: Accounts, ctx: BlockCtx, tagged: Tagged, layer: seq<nat>, i: nat, p: Progress,
      credited: Credits, q: Progress)
    requires Committable(evm, s, ctx, tagged, layer) && i < |layer|
    requires Abreast(evm, s, ctx, tagged, layer, i, p, credited, q)
    requires Proper(evm, s, ctx, tagged, layer, i).Some?
    requires LooksAway(Proper(evm, s, ctx, tagged, layer, i).value, credited)
    ensures var e := Proper(evm, s, ctx, tagged, layer, i);
      var miner := Miner(tagged, layer, i);
      && (forall a :: a in e.value.readSet ==> Get(q.accounts, a) == Get(p.accounts, a) == Get(s, a))
      && (forall a :: a in e.value.changes.Keys ==> a in e.value.readSet && forall c :: c in credited ==> c.0 != a || c.1 == 0)
      && Get(p.accounts, miner) == Get(s, miner)
      && Proper(evm, q.accounts, ctx, tagged, layer, i) == e
  {
    var e := Proper(evm, s, ctx, tagged, layer, i).value;
    ReadsWereLeft(evm, s, ctx, tagged, layer, i, p, credited, q);
    forall a | a in e.readSet
      ensures forall c :: c in credited ==> c.0 != a || c.1 == 0
      ensures Get(q.accounts, a) == Get(s, a)
    {
      CreditAtElsewhere(Get(p.accounts, a), credited, a);
    }
    assert SameOn(s, q.accounts, e.readSet);
  }

  // Credits aside, what it read is as it was.
  lemma ReadsWereLeft(evm: Evm, s: Accounts, ctx: BlockCtx, tagged: Tagged, layer: seq<nat>, i: nat, p: Progress,
      credited: Credits, q: Progress)
    requires Committable(evm, s, ctx, tagged, layer) && i < |layer|
    requires Abreast(evm, s, ctx, tagged, layer, i, p, credited, q) && Proper(evm, s, ctx, tagged, layer, i).Some?
    ensures forall a :: a in Proper(evm, s, ctx, tagged, layer, i).value.readSet + {Miner(tagged, layer, i)} ==>
              Get(p.accounts, a) == Get(s, a)
  {
    var e, specs := Proper(evm, s, ctx, tagged, layer, i).value, Speculate(evm, s, ctx, tagged, layer);
    forall a | a in e.readSet + {Miner(tagged, layer, i)} ensures Get(p.accounts, a) == Get(s, a) {
      if Get(p.accounts, a) != Get(s, a) {
        var j :| 0 <= j < i && a in specs[j].diff;
        WritesAreApart(evm, s, ctx, tagged, layer, j, i);
      }
    }
  }

  // In order, too, committing the beneficiary's entry leaves what crediting does.
  lemma OwnEntryInOrder(evm: Evm, s: Accounts, ctx: BlockCtx, tagged: Tagged, layer: seq<nat>, i: nat, p: Progress,
      credited: Credits, q: Progress)
    requires Committable(evm, s, ctx, tagged, layer) && i < |layer|
    requires Abreast(evm, s, ctx, tagged, layer, i, p, credited, q)
    requires Proper(evm, s, ctx, tagged, layer, i).Some?
    requires LooksAway(Proper(evm, s, ctx, tagged, layer, i).value, credited)
    ensures var e, miner := Proper(evm, s, ctx, tagged, layer, i).value, Miner(tagged, layer, i);
      CommitOne(Get(q.accounts, miner),
                Rewarded(Get(q.accounts, miner), e.changes, miner, Fee(Tip(ctx, TxAt(tagged, layer, i)), e.gasUsed)))
      == CreditOne(Get(q.accounts, miner), Speculate(evm, s, ctx, tagged, layer)[i].feeCredit)
  {
    var e, miner := Proper(evm, s, ctx, tagged, layer, i).value, Miner(tagged, layer, i);
    var fee, expected := Fee(Tip(ctx, TxAt(tagged, layer, i)), e.gasUsed),
        Speculate(evm, s, ctx, tagged, layer)[i].feeCredit;
    SpeculationIsProper(evm, s, ctx, tagged, layer, i);
    SeesTheSame(evm, s, ctx, tagged, layer, i, p, credited, q);
    if miner !in e.changes {
      RewardIsCredit(Get(q.accounts, miner), e.changes, miner, fee);
      CreditsGrow(Get(p.accounts, miner), credited, miner);
      EqualFees(Get(q.accounts, miner), InfoOf(Get(s, miner)).balance, fee, expected);
    }
  }

  lemma UndoAgrees(undo: UndoRecord, all: set<Address>, keys: set<Address>, miner: Address, s: Accounts, t: Accounts)
    requires all == keys + {miner}
    requires forall a :: a in all && a !in undo ==> Get(s, a) == Get(t, a)
    ensures NoteAll(undo, all, s) == Note(NoteAll(undo, keys, t), miner, t)
  {
  }

  // Both steps leave every account the same but for the credits set aside.
  lemma AccountsStayAbreast(p: Accounts, q: Accounts, credited: Credits, changes: Changes, miner: Address, fee: nat,
      expected: nat, a: Address)
    requires CommitOne(Get(q, miner), Rewarded(Get(q, miner), changes, miner, fee))
             == CreditOne(Get(q, miner), expected)
    requires Get(q, a) == CreditAt(Get(p, a), credited, a)
    requires a in changes ==> Get(q, a) == Get(p, a) && forall c :: c in credited ==> c.0 != a || c.1 == 0
    ensures Get(Committed(q, WithReward(q, changes, miner, fee)), a)
            == CreditAt(Get(Committed(p, changes - {miner}), a), credited + [(miner, expected)], a)
  {
    CommittedAt(q, WithReward(q, changes, miner, fee), a);
    CommittedAt(p, changes - {miner}, a);
    CreditAtAppend(Get(Committed(p, changes - {miner}), a), credited, miner, expected, a);
    if a in changes && a != miner {
      CreditAtElsewhere(Get(Committed(p, changes - {miner}), a), credited, a);
    }
  }

  function WithReward(s: Accounts, changes: Changes, miner: Address, fee: nat): (r: Changes)
    ensures r.Keys == changes.Keys + {miner}
  {
    changes[miner := Rewarded(Get(s, miner), changes, miner, fee)]
  }

  // In order, the transaction has the effect it had on the pre-round state, with
  // the reward written over the beneficiary's current account.
  lemma SequentialEffect(evm: Evm, s: Accounts, ctx: BlockCtx, tagged: Tagged, layer: seq<nat>, i: nat, p: Progress,
      credited: Credits, q: Progress)
    requires Committable(evm, s, ctx, tagged, layer) && i < |layer|
    requires Abreast(evm, s, ctx, tagged, layer, i, p, credited, q)
    requires Proper(evm, s, ctx, tagged, layer, i).Some?
    requires LooksAway(Proper(evm, s, ctx, tagged, layer, i).value, credited)
    ensures var e := Proper(evm, s, ctx, tagged, layer, i).value;
      var miner, tx := Miner(tagged, layer, i), TxAt(tagged, layer, i);
      var t := Transact(evm, q.accounts, ctx, miner, tx);
      && t.Some? && t.value.changes == WithReward(q.accounts, e.changes, miner, Fee(Tip(ctx, tx), e.gasUsed))
      && t.value.success == e.success && t.value.gasUsed == e.gasUsed && t.value.logs == e.logs
  {
    SeesTheSame(evm, s, ctx, tagged, layer, i, p, credited, q);
  }

  lemma SameRecord(b: ExecutedBlock, c: ExecutedBlock, undo: UndoRecord, undo': UndoRecord, tx: Tx, e: Effect,
      f: Effect)
    requires b == c && undo == undo' && e.success == f.success && e.gasUsed == f.gasUsed && e.logs == f.logs
    ensures Record(b.(undo := undo), tx, e) == Record(c.(undo := undo'), tx, f)
  {
  }

  // Committing an effect in order and committing its speculation keep one record.
  lemma SameCommit(p: Progress, q: Progress, miner: Address, tx: Tx, t: Effect, spec: Speculation)
    requires p.block == q.block && spec.result.Some? && t.changes.Keys == spec.diff.Keys + {miner}
    requires spec.result.value.success == t.success && spec.result.value.gasUsed == t.gasUsed
    requires spec.result.value.logs == t.logs
    requires forall a :: a in t.changes.Keys && a !in p.block.undo ==> Get(q.accounts, a) == Get(p.accounts, a)
    ensures Commit(q, tx, t).block == CommitSpeculated(p, miner, tx, spec).block
    ensures CommitSpeculated(p, miner, tx, spec).block.undo.Keys == p.block.undo.Keys + t.changes.Keys
  {
    UndoAgrees(p.block.undo, t.changes.Keys, spec.diff.Keys, miner, q.accounts, p.accounts);
    SameRecord(q.block, p.block, NoteAll(q.block.undo, t.changes.Keys, q.accounts),
               Note(NoteAll(p.block.undo, spec.diff.Keys, p.accounts), miner, p.accounts), tx, t, spec.result.value);
  }

  // Both steps keep the same record.
  lemma SequentialStep(evm: Evm, s: Accounts, ctx: BlockCtx, limit: nat, tagged: Tagged, layer: seq<nat>, i: nat,
      p: Progress, credited: Credits, q: Progress)
    requires Committable(evm, s, ctx, tagged, layer) && i < |layer|
    requires Abreast(evm, s, ctx, tagged, layer, i, p, credited, q)
    requires Proper(evm, s, ctx, tagged, layer, i).Some?
    requires LooksAway(Proper(evm, s, ctx, tagged, layer, i).value, credited)
    requires !OverBudget(p.block, TxAt(tagged, layer, i), limit)
    ensures var e := Proper(evm, s, ctx, tagged, layer, i).value;
      var miner, tx := Miner(tagged, layer, i), TxAt(tagged, layer, i);
      var spec := Speculate(evm, s, ctx, tagged, layer)[i];
      && spec.result.Some? && spec.diff == e.changes - {miner}
      && Step(evm, ctx, limit, q, miner, tx).accounts
         == Committed(q.accounts, WithReward(q.accounts, e.changes, miner, Fee(Tip(ctx, tx), e.gasUsed)))
      && Step(evm, ctx, limit, q, miner, tx).block == CommitSpeculated(p, miner, tx, spec).block
      && CommitSpeculated(p, miner, tx, spec).block.undo.Keys == p.block.undo.Keys + e.changes.Keys + {miner}
  {
    SpeculationIsProper(evm, s, ctx, tagged, layer, i);
    SequentialEffect(evm, s, ctx, tagged, layer, i, p, credited, q);
    var e := Proper(evm, s, ctx, tagged, layer, i).value;
    var miner, tx := Miner(tagged, layer, i), TxAt(tagged, layer, i);
    var spec := Speculate(evm, s, ctx, tagged, layer)[i];
    SameCommit(p, q, miner, tx, Transact(evm, q.accounts, ctx, miner, tx).value, spec);
  }

  lemma StepStaysAbreast(evm: Evm, s: Accounts, ctx: BlockCtx, limit: nat, tagged: Tagged, layer: seq<nat>, i: nat,
      p: Progress, credited: Credits, q: Progress)
    requires Committable(evm, s, ctx, tagged, layer) && i < |layer|
    requires Abreast(evm, s, ctx, tagged, layer, i, p, credited, q)
    requires Proper(evm, s, ctx, tagged, layer, i).Some?
    requires LooksAway(Proper(evm, s, ctx, tagged, layer, i).value, credited)
    requires !OverBudget(p.block, TxAt(tagged, layer, i), limit)
    ensures var spec := Speculate(evm, s, ctx, tagged, layer)[i];
      && spec.result.Some?
      && Abreast(evm, s, ctx, tagged, layer, i + 1,
                 CommitSpeculated(p, Miner(tagged, layer, i), TxAt(tagged, layer, i), spec),
                 credited + [(Miner(tagged, layer, i), spec.feeCredit)],
                 Step(evm, ctx, limit, q, Miner(tagged, layer, i), TxAt(tagged, layer, i)))
  {
    SequentialStep(evm, s, ctx, limit, tagged, layer, i, p, credited, q);
    SeesTheSame(evm, s, ctx, tagged, layer, i, p, credited, q);
    SpeculationIsProper(evm, s, ctx, tagged, layer, i);
    var e := Proper(evm, s, ctx, tagged, layer, i).value;
    var miner, tx := Miner(tagged, layer, i), TxAt(tagged, layer, i);
    var specs := Speculate(evm, s, ctx, tagged, layer);
    var spec := specs[i];
    var p', q' := CommitSpeculated(p, miner, tx, spec), Step(evm, ctx, limit, q, miner, tx);
    var credited' := credited + [(miner, spec.feeCredit)];
    OwnEntryInOrder(evm, s, ctx, tagged, layer, i, p, credited, q);
    forall a ensures Get(q'.accounts, a) == CreditAt(Get(p'.accounts, a), credited', a) {
      AccountsStayAbreast(p.accounts, q.accounts, credited, e.changes, miner, Fee(Tip(ctx, tx), e.gasUsed),
          spec.feeCredit, a);
    }
    forall a
      ensures a !in spec.diff ==> Get(p'.accounts, a) == Get(p.accounts, a)
      ensures a !in e.changes && a != miner ==> Get(q'.accounts, a) == Get(q.accounts, a)
    {
      CommittedAt(p.accounts, spec.diff, a);
      CommittedAt(q.accounts, WithReward(q.accounts, e.changes, miner, Fee(Tip(ctx, tx), e.gasUsed)), a);
    }
  }

  // No transaction that was not executable before the round is, in order, within
  // budget and executable at its turn.
  ghost predicate NoneAwakes(evm: Evm, s: Accounts, ctx: BlockCtx, limit: nat, q: Progress, tagged: Tagged,
      layer: seq<nat>)
    requires Positions(tagged, layer)
    decreases |layer|
  {
    layer == [] ||
    var (miner, tx) := tagged[layer[0]];
    && (evm(s, ctx, miner, tx).Some? || OverBudget(q.block, tx, limit) || evm(q.accounts, ctx, miner, tx).None?)
    && NoneAwakes(evm, s, ctx, limit, Step(evm, ctx, limit, q, miner, tx), tagged, layer[1..])
  }

  lemma {:induction false} RoundStaysAbreast(evm: Evm, s: Accounts, ctx: BlockCtx, limit: nat, tagged: Tagged,
      layer: seq<nat>, i: nat, p: Progress, credited: Credits, q: Progress)
    requires Committable(evm, s, ctx, tagged, layer) && i <= |layer|
    requires Abreast(evm, s, ctx, tagged, layer, i, p, credited, q)
    requires Positions(tagged, layer[i..]) && NoneAwakes(evm, s, ctx, limit, q, tagged, layer[i..])
    requires LooksApart(evm, s, ctx, limit, p, credited, tagged, layer[i..], Speculate(evm, s, ctx, tagged, layer)[i..])
    ensures var (p', credited') := CommitRound(limit, p, credited, tagged, layer[i..], Speculate(evm, s, ctx, tagged, layer)[i..]);
      Abreast(evm, s, ctx, tagged, layer, |layer|, p', credited', RunSequential(evm, ctx, limit, q, tagged, layer[i..]))
    decreases |layer| - i
  {
    var specs := Speculate(evm, s, ctx, tagged, layer);
    if i < |layer| {
      assert layer[i..][1..] == layer[i + 1..] && specs[i..][1..] == specs[i + 1..];
      var (miner, tx) := tagged[layer[i]];
      var q' := Step(evm, ctx, limit, q, miner, tx);
      SpeculationIsProper(evm, s, ctx, tagged, layer, i);
      if OverBudget(p.block, tx, limit) || Proper(evm, s, ctx, tagged, layer, i).None? {
        RoundStaysAbreast(evm, s, ctx, limit, tagged, layer, i + 1, Defer(p), credited, q');
      } else {
        StepStaysAbreast(evm, s, ctx, limit, tagged, layer, i, p, credited, q);
        RoundStaysAbreast(evm, s, ctx, limit, tagged, layer, i + 1,
                          CommitSpeculated(p, miner, tx, specs[i]), credited + [(miner, specs[i].feeCredit)], q');
      }
    }
  }

  lemma CommitIsSequential(evm: Evm, ctx: BlockCtx, limit: nat, p: Progress, tagged: Tagged, layer: seq<nat>)
    requires Committable(evm, p.accounts, ctx, tagged, layer)
    requires NoneAwakes(evm, p.accounts, ctx, limit, p, tagged, layer)
    requires LooksApart(evm, p.accounts, ctx, limit, p, [], tagged, layer, Speculate(evm, p.accounts, ctx, tagged, layer))
    ensures RunRound(evm, ctx, limit, p, tagged, layer) == RunSequential(evm, ctx, limit, p, tagged, layer)
  {
    var s := p.accounts;
    var specs := Speculate(evm, s, ctx, tagged, layer);
    assert layer[0..] == layer && specs[0..] == specs;
    RoundStaysAbreast(evm, s, ctx, limit, tagged, layer, 0, p, [], p);
    var (q, credited) := CommitRound(limit, p, [], tagged, layer, specs);
    var r := RunSequential(evm, ctx, limit, p, tagged, layer);
    forall a ensures Get(ApplyCredits(q.accounts, credited), a) == Get(r.accounts, a) {
      ApplyCreditsAt(q.accounts, credited, a);
    }
    SameAccounts(ApplyCredits(q.accounts, credited), r.accounts);
  }

  /* ---------- a transaction that awakes ---------- */

  // In order it is recorded.
  lemma {:induction false} AwakenedIsRecorded(evm: Evm, s: Accounts, ctx: BlockCtx, limit: nat, q: Progress,
      tagged: Tagged, layer: seq<nat>)
    returns (n: nat)
    requires Positions(tagged, layer) && DistinctHashes(tagged, layer)
    requires !NoneAwakes(evm, s, ctx, limit, q, tagged, layer)
    ensures n < |layer| && Proper(evm, s, ctx, tagged, layer, n).None?
    ensures var hash := TxAt(tagged, layer, n).hash;
      Recorded(RunSequential(evm, ctx, limit, q, tagged, layer).block, hash) == Recorded(q.block, hash) + 1
    decreases |layer|
  {
    var (miner, tx) := tagged[layer[0]];
    var q' := Step(evm, ctx, limit, q, miner, tx);
    FirstIsAlone(tagged, layer);
    if NoneAwakes(evm, s, ctx, limit, q', tagged, layer[1..]) {
      n := 0;
      SequentialCounts(evm, ctx, limit, q', tagged, layer[1..], tx.hash);
    } else {
      var m := AwakenedIsRecorded(evm, s, ctx, limit, q', tagged, layer[1..]);
      n := m + 1;
      assert TxAt(tagged, layer[1..], m) == TxAt(tagged, layer, n);
      assert Carries(tagged, layer[1..], TxAt(tagged, layer, n).hash);
    }
  }

  // Committed, it never is: nothing of its hash is.
  lemma {:induction false} CommitCounts(limit: nat, p: Progress, credited: Credits, tagged: Tagged, layer: seq<nat>,
      specs: seq<Speculation>, hash: nat)
    requires Positions(tagged, layer) && |layer| == |specs|
    requires forall i :: 0 <= i < |layer| && tagged[layer[i]].1.hash == hash ==> specs[i].result.None?
    ensures Recorded(CommitRound(limit, p, credited, tagged, layer, specs).0.block, hash) == Recorded(p.block, hash)
    decreases |layer|
  {
    if layer != [] {
      var (miner, tx) := tagged[layer[0]];
      assert forall i :: 0 <= i < |layer| - 1 ==> layer[1..][i] == layer[i + 1] && specs[1..][i] == specs[i + 1];
      if OverBudget(p.block, tx, limit) || specs[0].result.None? {
        CommitCounts(limit, Defer(p), credited, tagged, layer[1..], specs[1..], hash);
      } else {
        CommitCounts(limit, CommitSpeculated(p, miner, tx, specs[0]), credited + [(miner, specs[0].feeCredit)], tagged,
            layer[1..], specs[1..], hash);
      }
    }
  }

  lemma AwakenedIsLost(evm: Evm, ctx: BlockCtx, limit: nat, p: Progress, tagged: Tagged,
      layer: seq<nat>) returns (hash: nat)
    requires Positions(tagged, layer) && DistinctHashes(tagged, layer)
    requires Independent(Speculate(evm, p.accounts, ctx, tagged, layer))
    requires !NoneAwakes(evm, p.accounts, ctx, limit, p, tagged, layer)
    ensures Carries(tagged, layer, hash)
    ensures Recorded(RunRound(evm, ctx, limit, p, tagged, layer).block, hash)
            != Recorded(RunSequential(evm, ctx, limit, p, tagged, layer).block, hash)
  {
    var n := AwakenedIsRecorded(evm, p.accounts, ctx, limit, p, tagged, layer);
    hash := TxAt(tagged, layer, n).hash;
    var specs := Speculate(evm, p.accounts, ctx, tagged, layer);
    assert specs[n].result.None?;
    CommitCounts(limit, p, [], tagged, layer, specs, hash);
  }

  // In a validated round in which no transaction looks at an account an earlier one
  // credits, only awaking can show: it commits to what running it in order would
  // give - accounts, undo record, gas, receipts and counts - if, and for
  // transactions of different hashes only if, none becomes executable at its turn
  // that was not before the round.
  lemma AwakeningDecides(evm: Evm, ctx: BlockCtx, limit: nat, p: Progress, tagged: Tagged, layer: seq<nat>)
    requires Committable(evm, p.accounts, ctx, tagged, layer)
    requires LooksApart(evm, p.accounts, ctx, limit, p, [], tagged, layer, Speculate(evm, p.accounts, ctx, tagged, layer))
    ensures NoneAwakes(evm, p.accounts, ctx, limit, p, tagged, layer) ==>
              RunRound(evm, ctx, limit, p, tagged, layer) == RunSequential(evm, ctx, limit, p, tagged, layer)
    ensures DistinctHashes(tagged, layer)
            && RunRound(evm, ctx, limit, p, tagged, layer) == RunSequential(evm, ctx, limit, p, tagged, layer) ==>
              NoneAwakes(evm, p.accounts, ctx, limit, p, tagged, layer)
  {
    if NoneAwakes(evm, p.accounts, ctx, limit, p, tagged, layer) {
      CommitIsSequential(evm, ctx, limit, p, tagged, layer);
    } else if DistinctHashes(tagged, layer) {
      var hash := AwakenedIsLost(evm, ctx, limit, p, tagged, layer);
    }
  }

  // Executable from the start, none can awake.
  lemma {:induction false} AllExecutableNoneAwakes(evm: Evm, s: Accounts, ctx: BlockCtx, limit: nat, q: Progress,
      tagged: Tagged, layer: seq<nat>)
    requires Positions(tagged, layer)
    requires forall i {:trigger Proper(evm, s, ctx, tagged, layer, i)} :: 0 <= i < |layer| ==>
      Proper(evm, s, ctx, tagged, layer, i).Some?
    ensures NoneAwakes(evm, s, ctx, limit, q, tagged, layer)
    decreases |layer|
  {
    if layer != [] {
      assert Proper(evm, s, ctx, tagged, layer, 0).Some?;
      forall i | 0 <= i < |layer[1..]| ensures Proper(evm, s, ctx, tagged, layer[1..], i).Some? {
        assert Proper(evm, s, ctx, tagged, layer, i + 1).Some?;
      }
      AllExecutableNoneAwakes(evm, s, ctx, limit, Step(evm, ctx, limit, q, tagged[layer[0]].0, tagged[layer[0]].1),
          tagged, layer[1..]);
    }
  }

  /* ---------- the record of any round ---------- */

  // What a record says, its undo part aside.
  function Said(block: ExecutedBlock): ExecutedBlock {
    block.(undo := map[])
  }

  // Recording either result adds the same receipt and gas.
  predicate SameReceipt(block: ExecutedBlock, a: Option<Effect>, b: Option<Effect>) {
    match (a, b)
    case (None, None) => true
    case (Some(e), Some(f)) =>
      e.success == f.success && e.logs == f.logs && Add64(block.gasUsed, e.gasUsed) == Add64(block.gasUsed, f.gasUsed)
    case _ => false
  }

  // In order, every transaction within budget does at its turn what it was
  // speculated to do, as far as a receipt tells.
  predicate AsSpeculated(evm: Evm, ctx: BlockCtx, limit: nat, q: Progress, tagged: Tagged, layer: seq<nat>,
      specs: seq<Speculation>)
    requires Positions(tagged, layer) && |layer| == |specs|
    decreases |layer|
  {
    layer == [] ||
    var (miner, tx) := tagged[layer[0]];
    && (OverBudget(q.block, tx, limit) || SameReceipt(q.block, specs[0].result, Transact(evm, q.accounts, ctx, miner, tx)))
    && AsSpeculated(evm, ctx, limit, Step(evm, ctx, limit, q, miner, tx), tagged, layer[1..], specs[1..])
  }

  lemma {:induction false} SequentialGrows(evm: Evm, ctx: BlockCtx, limit: nat, q: Progress, tagged: Tagged,
      order: seq<nat>)
    requires Positions(tagged, order)
    ensures q.block.receipts <= RunSequential(evm, ctx, limit, q, tagged, order).block.receipts
    decreases |order|
  {
    if order != [] {
      var (miner, tx) := tagged[order[0]];
      SequentialGrows(evm, ctx, limit, Step(evm, ctx, limit, q, miner, tx), tagged, order[1..]);
    }
  }

  lemma {:induction false} CommitGrows(limit: nat, p: Progress, credited: Credits, tagged: Tagged, layer: seq<nat>,
      specs: seq<Speculation>)
    requires Positions(tagged, layer) && |layer| == |specs|
    ensures p.block.receipts <= CommitRound(limit, p, credited, tagged, layer, specs).0.block.receipts
    decreases |layer|
  {
    if layer != [] {
      var (miner, tx) := tagged[layer[0]];
      if OverBudget(p.block, tx, limit) || specs[0].result.None? {
        CommitGrows(limit, Defer(p), credited, tagged, layer[1..], specs[1..]);
      } else {
        CommitGrows(limit, CommitSpeculated(p, miner, tx, specs[0]), credited + [(miner, specs[0].feeCredit)], tagged,
            layer[1..], specs[1..]);
      }
    }
  }

  lemma StepsSayTheSame(evm: Evm, ctx: BlockCtx, limit: nat, p: Progress, q: Progress, credited: Credits,
      miner: Address, tx: Tx, spec: Speculation)
    requires Said(p.block) == Said(q.block)
    requires OverBudget(q.block, tx, limit) || SameReceipt(q.block, spec.result, Transact(evm, q.accounts, ctx, miner, tx))
    ensures Said(CommitStep(limit, p, credited, miner, tx, spec).0.block)
            == Said(Step(evm, ctx, limit, q, miner, tx).block)
  {
  }

  // Two records no later transaction of another hash can make equal: a hash counted
  // differently, or different receipts at one place.
  ghost predicate Telltale(a: ExecutedBlock, b: ExecutedBlock, hash: nat) {
    || Recorded(a, hash) != Recorded(b, hash)
    || exists k {:trigger a.receipts[k]} :: 0 <= k < |a.receipts| && k < |b.receipts| && a.receipts[k] != b.receipts[k]
  }

  // A transaction that does otherwise leaves its mark: its hash is recorded on one
  // side only, or the receipts differ where it stands.
  lemma OtherwiseShows(evm: Evm, ctx: BlockCtx, limit: nat, p: Progress, q: Progress, credited: Credits,
                       tagged: Tagged, layer: seq<nat>, specs: seq<Speculation>)
    requires Positions(tagged, layer) && |layer| == |specs| && layer != [] && DistinctHashes(tagged, layer)
    requires Said(p.block) == Said(q.block)
    requires !OverBudget(q.block, tagged[layer[0]].1, limit)
    requires !SameReceipt(q.block, specs[0].result, Transact(evm, q.accounts, ctx, tagged[layer[0]].0, tagged[layer[0]].1))
    ensures Telltale(CommitRound(limit, p, credited, tagged, layer, specs).0.block,
                     RunSequential(evm, ctx, limit, q, tagged, layer).block, tagged[layer[0]].1.hash)
  {
    var (miner, tx) := tagged[layer[0]];
    var (p', credited') := CommitStep(limit, p, credited, miner, tx, specs[0]);
    var q' := Step(evm, ctx, limit, q, miner, tx);
    FirstIsAlone(tagged, layer);
    if specs[0].result.Some? && Transact(evm, q.accounts, ctx, miner, tx).Some? {
      CommitGrows(limit, p', credited', tagged, layer[1..], specs[1..]);
      SequentialGrows(evm, ctx, limit, q', tagged, layer[1..]);
      var a := CommitRound(limit, p, credited, tagged, layer, specs).0.block;
      var k := |q.block.receipts|;
      assert p'.block.receipts[k] != q'.block.receipts[k];
      assert a.receipts[k] == p'.block.receipts[k];
    } else {
      CommitCounts(limit, p', credited', tagged, layer[1..], specs[1..], tx.hash);
      SequentialCounts(evm, ctx, limit, q', tagged, layer[1..], tx.hash);
      assert Recorded(p'.block, tx.hash) != Recorded(q'.block, tx.hash);
    }
  }

  lemma {:induction false} CommitSays(evm: Evm, ctx: BlockCtx, limit: nat, p: Progress, q: Progress, credited: Credits,
      tagged: Tagged, layer: seq<nat>, specs: seq<Speculation>)
    requires Positions(tagged, layer) && |layer| == |specs| && DistinctHashes(tagged, layer)
    requires Said(p.block) == Said(q.block)
    ensures Said(CommitRound(limit, p, credited, tagged, layer, specs).0.block)
            == Said(RunSequential(evm, ctx, limit, q, tagged, layer).block)
            <==> AsSpeculated(evm, ctx, limit, q, tagged, layer, specs)
    decreases |layer|
  {
    if layer != [] {
      var (miner, tx) := tagged[layer[0]];
      if OverBudget(q.block, tx, limit) || SameReceipt(q.block, specs[0].result, Transact(evm, q.accounts, ctx, miner, tx)) {
        FirstIsAlone(tagged, layer);
        StepsSayTheSame(evm, ctx, limit, p, q, credited, miner, tx, specs[0]);
        var (p', credited') := CommitStep(limit, p, credited, miner, tx, specs[0]);
        CommitSays(evm, ctx, limit, p', Step(evm, ctx, limit, q, miner, tx), credited', tagged, layer[1..], specs[1..]);
      } else {
        OtherwiseShows(evm, ctx, limit, p, q, credited, tagged, layer, specs);
      }
    }
  }

  // Whatever the round looks at: committing it gives the gas, receipts, hashes and
  // counts of running it in order if and only if every transaction within budget
  // does at its turn what it was speculated to do.
  lemma CommitRecordExact(evm: Evm, ctx: BlockCtx, limit: nat, p: Progress, tagged: Tagged, layer: seq<nat>)
    requires Positions(tagged, layer) && DistinctHashes(tagged, layer)
    requires Independent(Speculate(evm, p.accounts, ctx, tagged, layer))
    ensures Said(RunRound(evm, ctx, limit, p, tagged, layer).block)
            == Said(RunSequential(evm, ctx, limit, p, tagged, layer).block)
            <==> AsSpeculated(evm, ctx, limit, p, tagged, layer, Speculate(evm, p.accounts, ctx, tagged, layer))
  {
    CommitSays(evm, ctx, limit, p, p, [], tagged, layer, Speculate(evm, p.accounts, ctx, tagged, layer));
  }
}
