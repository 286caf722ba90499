// A whole block executed round by round: its undo record and ledger on every
// input, and when it equals the sequential block.
module ParallelBlock {
  import opened Blocks
  import opened Seqs
  import opened WorldStates
  import opened Journal
  import opened Execution
  import opened Rounds
  import opened Parallel
  import opened SpeculativeCommit

  /* ---------- undo ---------- */

  // Changing noted accounts only keeps a record covering.
  lemma NotedOnlyKeepsCover(before: Accounts, now: Accounts, next: Accounts, undo: UndoRecord)
    requires Covers(before, now, undo) && forall a :: a !in undo ==> Get(next, a) == Get(now, a)
    ensures Covers(before, next, undo)
  {
    NotedChangesCover(before, now, next, undo, {});
    assert NoteAll(undo, {}, now) == undo;
  }

  lemma SpeculatedKeepsCover(before: Accounts, p: Progress, miner: Address, tx: Tx, spec: Speculation)
    requires spec.result.Some? && Covers(before, p.accounts, p.block.undo)
    ensures var q := CommitSpeculated(p, miner, tx, spec);
      Covers(before, q.accounts, q.block.undo) && p.block.undo.Keys + {miner} <= q.block.undo.Keys
  {
    var next := Committed(p.accounts, spec.diff);
    forall a | a !in spec.diff.Keys + {miner} ensures Get(next, a) == Get(p.accounts, a) {
      CommittedAt(p.accounts, spec.diff, a);
    }
    NotedChangesCover(before, p.accounts, next, p.block.undo, spec.diff.Keys + {miner});
    UndoAgrees(p.block.undo, spec.diff.Keys + {miner}, spec.diff.Keys, miner, p.accounts, p.accounts);
  }

  lemma {:induction false} CommitRoundCovers(before: Accounts, limit: nat, p: Progress, credited: Credits,
      tagged: Tagged, layer: seq<nat>, specs: seq<Speculation>)
    requires Positions(tagged, layer) && |layer| == |specs|
    requires Covers(before, p.accounts, p.block.undo) && forall c :: c in credited ==> c.0 in p.block.undo
    ensures var (q, credited') := CommitRound(limit, p, credited, tagged, layer, specs);
      Covers(before, q.accounts, q.block.undo) && forall c :: c in credited' ==> c.0 in q.block.undo
    decreases |layer|
  {
    if layer != [] {
      var (miner, tx) := tagged[layer[0]];
      if OverBudget(p.block, tx, limit) || specs[0].result.None? {
        CommitRoundCovers(before, limit, Defer(p), credited, tagged, layer[1..], specs[1..]);
      } else {
        SpeculatedKeepsCover(before, p, miner, tx, specs[0]);
        CommitRoundCovers(before, limit, CommitSpeculated(p, miner, tx, specs[0]), credited + [(miner, specs[0].feeCredit)],
                          tagged, layer[1..], specs[1..]);
      }
    }
  }

  lemma RoundCovers(evm: Evm, ctx: BlockCtx, limit: nat, before: Accounts, p: Progress, tagged: Tagged, layer: seq<nat>)
    requires Positions(tagged, layer) && Covers(before, p.accounts, p.block.undo)
    ensures var q := RunRound(evm, ctx, limit, p, tagged, layer); Covers(before, q.accounts, q.block.undo)
  {
    var specs := Speculate(evm, p.accounts, ctx, tagged, layer);
    if Independent(specs) {
      CommitRoundCovers(before, limit, p, [], tagged, layer, specs);
      var (q, credited) := CommitRound(limit, p, [], tagged, layer, specs);
      forall a | a !in q.block.undo ensures Get(ApplyCredits(q.accounts, credited), a) == Get(q.accounts, a) {
        ApplyCreditsAt(q.accounts, credited, a);
        CreditAtElsewhere(Get(q.accounts, a), credited, a);
      }
      NotedOnlyKeepsCover(before, q.accounts, ApplyCredits(q.accounts, credited), q.block.undo);
    } else {
      var r := RunSequential(evm, ctx, limit, Progress(p.accounts, EMPTY_BLOCK), tagged, layer);
      EmptyCovers(p.accounts);
      SequentialCovers(evm, ctx, limit, p.accounts, Progress(p.accounts, EMPTY_BLOCK), tagged, layer);
      MergedCovers(before, p.accounts, r.accounts, p.block.undo, r.block.undo);
    }
  }

  lemma {:induction false} ParallelCovers(evm: Evm, ctx: BlockCtx, limit: nat, before: Accounts, p: Progress,
      tagged: Tagged, layers: seq<seq<nat>>)
    requires AllPositions(tagged, layers) && Covers(before, p.accounts, p.block.undo)
    ensures var q := RunParallel(evm, ctx, limit, p, tagged, layers); Covers(before, q.accounts, q.block.undo)
    decreases |layers|
  {
    if layers != [] {
      RoundCovers(evm, ctx, limit, before, p, tagged, layers[0]);
      ParallelCovers(evm, ctx, limit, before, RunRound(evm, ctx, limit, p, tagged, layers[0]), tagged, layers[1..]);
    }
  }

  /* ---------- ledger ---------- */

  // What a committed round executes: each transaction's speculated effect.
  function TraceCommit(limit: nat, p: Progress, tagged: Tagged, layer: seq<nat>, specs: seq<Speculation>): Trace
    requires Positions(tagged, layer) && |layer| == |specs|
    decreases |layer|
  {
    if layer == [] then [] else
      var (miner, tx) := tagged[layer[0]];
      if OverBudget(p.block, tx, limit) || specs[0].result.None? then
        TraceCommit(limit, Defer(p), tagged, layer[1..], specs[1..])
      else
        [(tx, specs[0].result.value)] + TraceCommit(limit, CommitSpeculated(p, miner, tx, specs[0]), tagged, layer[1..], specs[1..])
  }

  function TraceRound(evm: Evm, ctx: BlockCtx, limit: nat, p: Progress, tagged: Tagged, layer: seq<nat>): Trace
    requires Positions(tagged, layer)
  {
    var specs := Speculate(evm, p.accounts, ctx, tagged, layer);
    if Independent(specs) then TraceCommit(limit, p, tagged, layer, specs)
    else TraceSequential(evm, ctx, limit, Progress(p.accounts, EMPTY_BLOCK), tagged, layer)
  }

  // What the rounds of a block execute, with the effects they committed.
  function TraceParallel(evm: Evm, ctx: BlockCtx, limit: nat, p: Progress, tagged: Tagged, layers: seq<seq<nat>>): Trace
    requires AllPositions(tagged, layers)
    decreases |layers|
  {
    if layers == [] then [] else
      TraceRound(evm, ctx, limit, p, tagged, layers[0])
      + TraceParallel(evm, ctx, limit, RunRound(evm, ctx, limit, p, tagged, layers[0]), tagged, layers[1..])
  }

  lemma {:induction false} CommitRoundLedger(limit: nat, p: Progress, credited: Credits, tagged: Tagged,
      layer: seq<nat>, specs: seq<Speculation>, trace: Trace, considered: nat)
    requires Positions(tagged, layer) && |layer| == |specs| && Ledger(p, trace, considered)
    ensures Ledger(CommitRound(limit, p, credited, tagged, layer, specs).0,
                   trace + TraceCommit(limit, p, tagged, layer, specs), considered + |layer|)
    decreases |layer|
  {
    if layer == [] {
      assert trace + [] == trace;
    } else {
      var (miner, tx) := tagged[layer[0]];
      if OverBudget(p.block, tx, limit) || specs[0].result.None? {
        CommitRoundLedger(limit, Defer(p), credited, tagged, layer[1..], specs[1..], trace, considered + 1);
      } else {
        var q, first := CommitSpeculated(p, miner, tx, specs[0]), [(tx, specs[0].result.value)];
        RecordExtendsLedger(p, q, trace, considered, tx, specs[0].result.value);
        CommitRoundLedger(limit, q, credited + [(miner, specs[0].feeCredit)], tagged, layer[1..], specs[1..],
            trace + first, considered + 1);
        Reassociated(trace, first, TraceCommit(limit, q, tagged, layer[1..], specs[1..]));
      }
    }
  }

  lemma RoundLedger(evm: Evm, ctx: BlockCtx, limit: nat, p: Progress, tagged: Tagged, layer: seq<nat>, trace: Trace,
      considered: nat)
    requires Positions(tagged, layer) && Ledger(p, trace, considered)
    ensures Ledger(RunRound(evm, ctx, limit, p, tagged, layer),
                   trace + TraceRound(evm, ctx, limit, p, tagged, layer), considered + |layer|)
  {
    var specs := Speculate(evm, p.accounts, ctx, tagged, layer);
    if Independent(specs) {
      CommitRoundLedger(limit, p, [], tagged, layer, specs, trace, considered);
    } else {
      var anew := Progress(p.accounts, EMPTY_BLOCK);
      EmptyLedger(anew, []);
      SequentialLedger(evm, ctx, limit, anew, tagged, layer, [], 0);
      var more := TraceSequential(evm, ctx, limit, anew, tagged, layer);
      assert [] + more == more;
      AbsorbConcatenatesLedgers(p, RunSequential(evm, ctx, limit, anew, tagged, layer), trace, more, considered,
          |layer|);
    }
  }

  // A block executed in rounds has the ledger of what its rounds executed, on
  // every input, fallback rounds included.
  lemma {:induction false} ParallelLedger(evm: Evm, ctx: BlockCtx, limit: nat, p: Progress, tagged: Tagged,
      layers: seq<seq<nat>>, trace: Trace, considered: nat)
    requires AllPositions(tagged, layers) && Ledger(p, trace, considered)
    ensures Ledger(RunParallel(evm, ctx, limit, p, tagged, layers),
                   trace + TraceParallel(evm, ctx, limit, p, tagged, layers), considered + |Flatten(layers)|)
    decreases |layers|
  {
    if layers == [] {
      assert trace + [] == trace;
    } else {
      var q, first := RunRound(evm, ctx, limit, p, tagged, layers[0]),
          TraceRound(evm, ctx, limit, p, tagged, layers[0]);
      RoundLedger(evm, ctx, limit, p, tagged, layers[0], trace, considered);
      ParallelLedger(evm, ctx, limit, q, tagged, layers[1..], trace + first, considered + |layers[0]|);
      Reassociated(trace, first, TraceParallel(evm, ctx, limit, q, tagged, layers[1..]));
    }
  }

  lemma {:induction false} CommitDrawn(limit: nat, p: Progress, tagged: Tagged, layer: seq<nat>,
      specs: seq<Speculation>)
    requires Positions(tagged, layer) && |layer| == |specs|
    ensures Drawn(TraceCommit(limit, p, tagged, layer, specs), tagged, layer)
    decreases |layer|
  {
    if layer != [] {
      var (miner, tx) := tagged[layer[0]];
      if OverBudget(p.block, tx, limit) || specs[0].result.None? {
        CommitDrawn(limit, Defer(p), tagged, layer[1..], specs[1..]);
        DrawnFirst([], TraceCommit(limit, Defer(p), tagged, layer[1..], specs[1..]), tagged, layer);
        assert [] + TraceCommit(limit, p, tagged, layer, specs) == TraceCommit(limit, p, tagged, layer, specs);
      } else {
        var q := CommitSpeculated(p, miner, tx, specs[0]);
        CommitDrawn(limit, q, tagged, layer[1..], specs[1..]);
        DrawnFirst([(tx, specs[0].result.value)], TraceCommit(limit, q, tagged, layer[1..], specs[1..]), tagged, layer);
      }
    }
  }

  lemma {:induction false} ParallelDrawn(evm: Evm, ctx: BlockCtx, limit: nat, p: Progress, tagged: Tagged,
      layers: seq<seq<nat>>)
    requires AllPositions(tagged, layers)
    ensures Positions(tagged, Flatten(layers))
    ensures Drawn(TraceParallel(evm, ctx, limit, p, tagged, layers), tagged, Flatten(layers))
    decreases |layers|
  {
    if layers != [] {
      var q, first := RunRound(evm, ctx, limit, p, tagged, layers[0]),
          TraceRound(evm, ctx, limit, p, tagged, layers[0]);
      ParallelDrawn(evm, ctx, limit, q, tagged, layers[1..]);
      CommitDrawn(limit, p, tagged, layers[0], Speculate(evm, p.accounts, ctx, tagged, layers[0]));
      SequentialDrawn(evm, ctx, limit, Progress(p.accounts, EMPTY_BLOCK), tagged, layers[0]);
      DrawnConcat(first, TraceParallel(evm, ctx, limit, q, tagged, layers[1..]), tagged, layers[0],
          Flatten(layers[1..]));
    }
  }

  lemma DrawnConcat(a: Trace, b: Trace, tagged: Tagged, x: seq<nat>, y: seq<nat>)
    requires Positions(tagged, x) && Positions(tagged, y) && Drawn(a, tagged, x) && Drawn(b, tagged, y)
    ensures Positions(tagged, x + y) && Drawn(a + b, tagged, x + y)
  {
    WithinConcat(TxsOf(a), TxsAt(tagged, x), TxsOf(b), TxsAt(tagged, y));
    assert TxsOf(a) + TxsOf(b) == TxsOf(a + b);
    assert TxsAt(tagged, x) + TxsAt(tagged, y) == TxsAt(tagged, x + y);
  }

  /* ---------- the fallback round ---------- */

  // An executable transaction that fits the restarted round's budget and not what
  // is left of the block's.
  predicate Overdraws(evm: Evm, ctx: BlockCtx, limit: nat, base: ExecutedBlock, p: Progress, miner: Address, tx: Tx) {
    Transact(evm, p.accounts, ctx, miner, tx).Some? && !OverBudget(p.block, tx, limit) && OverBudget(Absorb(base, p.block), tx, limit)
  }

  // The restarted round executes nothing the running block would have deferred.
  predicate SameDecisions(evm: Evm, ctx: BlockCtx, limit: nat, base: ExecutedBlock, p: Progress, tagged: Tagged,
      order: seq<nat>)
    requires Positions(tagged, order)
    decreases |order|
  {
    order == [] ||
    var (miner, tx) := tagged[order[0]];
    && !Overdraws(evm, ctx, limit, base, p, miner, tx)
    && SameDecisions(evm, ctx, limit, base, Step(evm, ctx, limit, p, miner, tx), tagged, order[1..])
  }

  // Absorbing before or after recording one more transaction is the same.
  lemma RejoinRecord(base: ExecutedBlock, block: ExecutedBlock, keys: set<Address>, accounts: Accounts, tx: Tx,
      e: Effect)
    ensures Absorb(base, Record(block.(undo := NoteAll(block.undo, keys, accounts)), tx, e))
            == Record(Absorb(base, block).(undo := NoteAll(Absorb(base, block).undo, keys, accounts)), tx, e)
  {
    var gas := Add64(block.gasUsed, e.gasUsed);
    assert Merge(base.undo, NoteAll(block.undo, keys, accounts)) == NoteAll(Merge(base.undo, block.undo), keys, accounts);
    assert base.hashes + (block.hashes + [tx.hash]) == base.hashes + block.hashes + [tx.hash];
    var more := block.receipts + [Receipt(e.success, gas, e.logs)];
    assert Rebased(base.gasUsed, more)
        == Rebased(base.gasUsed, block.receipts) + [Receipt(e.success, Add64(base.gasUsed, gas), e.logs)];
    assert base.receipts + Rebased(base.gasUsed, more)
        == base.receipts + Rebased(base.gasUsed, block.receipts) + [Receipt(e.success, Add64(base.gasUsed, gas), e.logs)];
  }

  lemma RejoinStep(evm: Evm, ctx: BlockCtx, limit: nat, base: ExecutedBlock, p: Progress, miner: Address, tx: Tx)
    requires p.block.gasUsed <= U64_MAX && !Overdraws(evm, ctx, limit, base, p, miner, tx)
    ensures Rejoined(base, Step(evm, ctx, limit, p, miner, tx)) == Step(evm, ctx, limit, Rejoined(base, p), miner, tx)
  {
    var t := Transact(evm, p.accounts, ctx, miner, tx);
    if !OverBudget(p.block, tx, limit) && t.Some? {
      RejoinRecord(base, p.block, t.value.changes.Keys, p.accounts, tx, t.value);
    }
  }

  // Then, absorbed, it equals running on.
  lemma {:induction false} FallbackRejoins(evm: Evm, ctx: BlockCtx, limit: nat, base: ExecutedBlock, p: Progress,
      tagged: Tagged, order: seq<nat>)
    requires Positions(tagged, order) && p.block.gasUsed <= U64_MAX
    requires SameDecisions(evm, ctx, limit, base, p, tagged, order)
    ensures Rejoined(base, RunSequential(evm, ctx, limit, p, tagged, order))
            == RunSequential(evm, ctx, limit, Rejoined(base, p), tagged, order)
    decreases |order|
  {
    if order != [] {
      var (miner, tx) := tagged[order[0]];
      RejoinStep(evm, ctx, limit, base, p, miner, tx);
      FallbackRejoins(evm, ctx, limit, base, Step(evm, ctx, limit, p, miner, tx), tagged, order[1..]);
    }
  }

  lemma RejoinCounts(base: ExecutedBlock, p: Progress, hash: nat)
    ensures Recorded(Rejoined(base, p).block, hash) == Recorded(base, hash) + Recorded(p.block, hash)
  {
  }

  // Otherwise the restarted round records a transaction running on never does.
  lemma {:induction false} OverdraftIsRecorded(evm: Evm, ctx: BlockCtx, limit: nat, base: ExecutedBlock, p: Progress,
      tagged: Tagged, order: seq<nat>)
    returns (hash: nat)
    requires Positions(tagged, order) && DistinctHashes(tagged, order) && p.block.gasUsed <= U64_MAX
    requires !SameDecisions(evm, ctx, limit, base, p, tagged, order)
    ensures Carries(tagged, order, hash)
    ensures Recorded(Rejoined(base, RunSequential(evm, ctx, limit, p, tagged, order)).block, hash)
            == Recorded(RunSequential(evm, ctx, limit, Rejoined(base, p), tagged, order).block, hash) + 1
    decreases |order|
  {
    var (miner, tx) := tagged[order[0]];
    var next := Step(evm, ctx, limit, p, miner, tx);
    FirstIsAlone(tagged, order);
    if Overdraws(evm, ctx, limit, base, p, miner, tx) {
      hash := tx.hash;
      SequentialCounts(evm, ctx, limit, next, tagged, order[1..], hash);
      SequentialCounts(evm, ctx, limit, Defer(Rejoined(base, p)), tagged, order[1..], hash);
      RejoinCounts(base, RunSequential(evm, ctx, limit, p, tagged, order), hash);
      RejoinCounts(base, p, hash);
      RecordCounts(p.block, tx, Transact(evm, p.accounts, ctx, miner, tx).value, hash);
    } else {
      RejoinStep(evm, ctx, limit, base, p, miner, tx);
      hash := OverdraftIsRecorded(evm, ctx, limit, base, next, tagged, order[1..]);
      CarriesCons(tagged, order, hash);
    }
  }

  // The restarted gas count, exactly: a round of transactions with different
  // hashes, run from zero and absorbed, equals running on if and only if it
  // executes nothing running on would have deferred for the budget.
  lemma FallbackExact(evm: Evm, ctx: BlockCtx, limit: nat, base: ExecutedBlock, p: Progress, tagged: Tagged,
      order: seq<nat>)
    requires Positions(tagged, order) && DistinctHashes(tagged, order) && p.block.gasUsed <= U64_MAX
    ensures Rejoined(base, RunSequential(evm, ctx, limit, p, tagged, order))
            == RunSequential(evm, ctx, limit, Rejoined(base, p), tagged, order)
            <==> SameDecisions(evm, ctx, limit, base, p, tagged, order)
  {
    if SameDecisions(evm, ctx, limit, base, p, tagged, order) {
      FallbackRejoins(evm, ctx, limit, base, p, tagged, order);
    } else {
      var hash := OverdraftIsRecorded(evm, ctx, limit, base, p, tagged, order);
    }
  }

  // No round whose declared gas fits what is left of the block does.
  lemma {:induction false} FittingRoundDecidesTheSame(evm: Evm, ctx: BlockCtx, limit: nat, base: ExecutedBlock,
      p: Progress, tagged: Tagged, order: seq<nat>)
    requires GasBounded(evm) && Positions(tagged, order)
    requires base.gasUsed + p.block.gasUsed + DeclaredGas(tagged, order) <= limit <= U64_MAX
    ensures SameDecisions(evm, ctx, limit, base, p, tagged, order)
    decreases |order|
  {
    if order != [] {
      var (miner, tx) := tagged[order[0]];
      assert !OverBudget(p.block, tx, limit);
      FittingRoundDecidesTheSame(evm, ctx, limit, base, Step(evm, ctx, limit, p, miner, tx), tagged, order[1..]);
    }
  }

  // A one-transaction round falls back to what running on would give unless the
  // transaction is executable, fits an empty block and no longer fits this one.
  lemma SingleFallbackExact(evm: Evm, ctx: BlockCtx, limit: nat, p: Progress, tagged: Tagged, i: nat)
    requires i < |tagged| && p.block.gasUsed <= U64_MAX
    ensures Fallback(evm, ctx, limit, p, tagged, [i]) == RunSequential(evm, ctx, limit, p, tagged, [i])
            <==> !(&& Transact(evm, p.accounts, ctx, tagged[i].0, tagged[i].1).Some?
                   && !OverBudget(EMPTY_BLOCK, tagged[i].1, limit) && OverBudget(p.block, tagged[i].1, limit))
  {
    var anew := Progress(p.accounts, EMPTY_BLOCK);
    assert [i][1..] == [];
    RejoinEmpty(p);
    FallbackExact(evm, ctx, limit, p.block, anew, tagged, [i]);
    assert SameDecisions(evm, ctx, limit, p.block, anew, tagged, [i])
        <==> !Overdraws(evm, ctx, limit, p.block, anew, tagged[i].0, tagged[i].1);
  }

  lemma RejoinEmpty(p: Progress)
    requires p.block.gasUsed <= U64_MAX
    ensures Rejoined(p.block, Progress(p.accounts, EMPTY_BLOCK)) == p
  {
    assert Merge(p.block.undo, map[]) == p.block.undo;
    assert p.block.receipts + Rebased(p.block.gasUsed, []) == p.block.receipts;
    assert p.block.hashes + [] == p.block.hashes;
  }

  /* ---------- the whole block ---------- */

  // If the round is committed, no transaction looks at what an earlier one credits.
  ghost predicate RoundApart(evm: Evm, ctx: BlockCtx, limit: nat, p: Progress, tagged: Tagged, layer: seq<nat>)
    requires Positions(tagged, layer)
  {
    var specs := Speculate(evm, p.accounts, ctx, tagged, layer);
    Independent(specs) ==>
      Committable(evm, p.accounts, ctx, tagged, layer) && LooksApart(evm, p.accounts, ctx, limit, p, [], tagged, layer, specs)
  }

  ghost predicate CreditsApart(evm: Evm, ctx: BlockCtx, limit: nat, p: Progress, tagged: Tagged, layers: seq<seq<nat>>)
    requires AllPositions(tagged, layers)
    decreases |layers|
  {
    layers != [] ==>
    && RoundApart(evm, ctx, limit, p, tagged, layers[0])
    && CreditsApart(evm, ctx, limit, RunRound(evm, ctx, limit, p, tagged, layers[0]), tagged, layers[1..])
  }

  // A committed round wakes no transaction; a fallback round overdraws nothing.
  ghost predicate Faithful(evm: Evm, ctx: BlockCtx, limit: nat, p: Progress, tagged: Tagged, layer: seq<nat>)
    requires Positions(tagged, layer)
  {
    if Independent(Speculate(evm, p.accounts, ctx, tagged, layer)) then NoneAwakes(evm, p.accounts, ctx, limit, p, tagged, layer)
    else SameDecisions(evm, ctx, limit, p.block, Progress(p.accounts, EMPTY_BLOCK), tagged, layer)
  }

  ghost predicate FaithfulRounds(evm: Evm, ctx: BlockCtx, limit: nat, p: Progress, tagged: Tagged,
      layers: seq<seq<nat>>)
    requires AllPositions(tagged, layers)
    decreases |layers|
  {
    layers != [] ==>
    && Faithful(evm, ctx, limit, p, tagged, layers[0])
    && FaithfulRounds(evm, ctx, limit, RunRound(evm, ctx, limit, p, tagged, layers[0]), tagged, layers[1..])
  }

  lemma FaithfulRound(evm: Evm, ctx: BlockCtx, limit: nat, p: Progress, tagged: Tagged, layer: seq<nat>)
    requires Positions(tagged, layer) && p.block.gasUsed <= U64_MAX && Faithful(evm, ctx, limit, p, tagged, layer)
    requires RoundApart(evm, ctx, limit, p, tagged, layer)
    ensures RunRound(evm, ctx, limit, p, tagged, layer) == RunSequential(evm, ctx, limit, p, tagged, layer)
  {
    if Independent(Speculate(evm, p.accounts, ctx, tagged, layer)) {
      AwakeningDecides(evm, ctx, limit, p, tagged, layer);
    } else {
      FallbackRejoins(evm, ctx, limit, p.block, Progress(p.accounts, EMPTY_BLOCK), tagged, layer);
      RejoinEmpty(p);
    }
  }

  lemma FaithlessRound(evm: Evm, ctx: BlockCtx, limit: nat, p: Progress, tagged: Tagged,
      layer: seq<nat>) returns (hash: nat)
    requires Positions(tagged, layer) && DistinctHashes(tagged, layer) && p.block.gasUsed <= U64_MAX
    requires !Faithful(evm, ctx, limit, p, tagged, layer)
    ensures Carries(tagged, layer, hash)
    ensures Recorded(RunRound(evm, ctx, limit, p, tagged, layer).block, hash)
            != Recorded(RunSequential(evm, ctx, limit, p, tagged, layer).block, hash)
  {
    if Independent(Speculate(evm, p.accounts, ctx, tagged, layer)) {
      hash := AwakenedIsLost(evm, ctx, limit, p, tagged, layer);
    } else {
      hash := OverdraftIsRecorded(evm, ctx, limit, p.block, Progress(p.accounts, EMPTY_BLOCK), tagged, layer);
      RejoinEmpty(p);
    }
  }

  lemma RoundCounts(evm: Evm, ctx: BlockCtx, limit: nat, p: Progress, tagged: Tagged, layer: seq<nat>, hash: nat)
    requires Positions(tagged, layer) && !Carries(tagged, layer, hash)
    ensures Recorded(RunRound(evm, ctx, limit, p, tagged, layer).block, hash) == Recorded(p.block, hash)
  {
    var specs, anew := Speculate(evm, p.accounts, ctx, tagged, layer), Progress(p.accounts, EMPTY_BLOCK);
    if Independent(specs) {
      CommitCounts(limit, p, [], tagged, layer, specs, hash);
    } else {
      SequentialCounts(evm, ctx, limit, anew, tagged, layer, hash);
      RejoinCounts(p.block, RunSequential(evm, ctx, limit, anew, tagged, layer), hash);
    }
  }

  lemma {:induction false} ParallelCounts(evm: Evm, ctx: BlockCtx, limit: nat, p: Progress, tagged: Tagged,
      layers: seq<seq<nat>>, hash: nat)
    requires AllPositions(tagged, layers) && Positions(tagged, Flatten(layers))
    requires !Carries(tagged, Flatten(layers), hash)
    ensures Recorded(RunParallel(evm, ctx, limit, p, tagged, layers).block, hash) == Recorded(p.block, hash)
    decreases |layers|
  {
    if layers != [] {
      HashesApart(tagged, layers[0], Flatten(layers[1..]));
      RoundCounts(evm, ctx, limit, p, tagged, layers[0], hash);
      ParallelCounts(evm, ctx, limit, RunRound(evm, ctx, limit, p, tagged, layers[0]), tagged, layers[1..], hash);
    }
  }

  // Two parts of an order.
  lemma HashesApart(tagged: Tagged, a: seq<nat>, b: seq<nat>)
    requires Positions(tagged, a + b)
    ensures Positions(tagged, a) && Positions(tagged, b)
    ensures forall hash :: Carries(tagged, a, hash) || Carries(tagged, b, hash) ==> Carries(tagged, a + b, hash)
    ensures DistinctHashes(tagged, a + b) ==>
              DistinctHashes(tagged, a) && DistinctHashes(tagged, b)
              && forall hash :: !(Carries(tagged, a, hash) && Carries(tagged, b, hash))
  {
    assert forall i :: 0 <= i < |a| ==> (a + b)[i] == a[i];
    assert forall i :: 0 <= i < |b| ==> (a + b)[|a| + i] == b[i];
  }

  lemma {:induction false} FlatPositions(tagged: Tagged, layers: seq<seq<nat>>)
    requires AllPositions(tagged, layers)
    ensures Positions(tagged, Flatten(layers))
    decreases |layers|
  {
    if layers != [] {
      FlatPositions(tagged, layers[1..]);
    }
  }

  // Where no committed round looks at what it credits, executing a block in rounds
  // equals executing the rounds laid end to end in order if, and for transactions
  // of different hashes only if, every round is faithful.
  lemma {:induction false} FaithfulBlockIsSequential(evm: Evm, ctx: BlockCtx, limit: nat, p: Progress, tagged: Tagged,
      layers: seq<seq<nat>>)
    requires AllPositions(tagged, layers) && p.block.gasUsed <= U64_MAX
    requires CreditsApart(evm, ctx, limit, p, tagged, layers)
    ensures Positions(tagged, Flatten(layers))
    ensures FaithfulRounds(evm, ctx, limit, p, tagged, layers) ==>
              RunParallel(evm, ctx, limit, p, tagged, layers) == RunSequential(evm, ctx, limit, p, tagged, Flatten(layers))
    ensures DistinctHashes(tagged, Flatten(layers))
            && RunParallel(evm, ctx, limit, p, tagged, layers) == RunSequential(evm, ctx, limit, p, tagged, Flatten(layers)) ==>
              FaithfulRounds(evm, ctx, limit, p, tagged, layers)
    decreases |layers|
  {
    FlatPositions(tagged, layers);
    if layers != [] {
      var layer, rest := layers[0], layers[1..];
      FlatPositions(tagged, rest);
      HashesApart(tagged, layer, Flatten(rest));
      RunConcat(evm, ctx, limit, p, tagged, layer, Flatten(rest));
      if Faithful(evm, ctx, limit, p, tagged, layer) {
        FaithfulRound(evm, ctx, limit, p, tagged, layer);
        GasStaysInRange(evm, ctx, limit, p, tagged, layer);
        FaithfulBlockIsSequential(evm, ctx, limit, RunRound(evm, ctx, limit, p, tagged, layer), tagged, rest);
      } else if DistinctHashes(tagged, Flatten(layers)) {
        FaithlessForGood(evm, ctx, limit, p, tagged, layer, rest);
      }
    }
  }

  // What a faithless round got wrong, no later round puts right.
  lemma FaithlessForGood(evm: Evm, ctx: BlockCtx, limit: nat, p: Progress, tagged: Tagged, layer: seq<nat>,
      rest: seq<seq<nat>>)
    requires Positions(tagged, layer) && AllPositions(tagged, rest) && p.block.gasUsed <= U64_MAX
    requires Positions(tagged, layer + Flatten(rest)) && DistinctHashes(tagged, layer + Flatten(rest))
    requires !Faithful(evm, ctx, limit, p, tagged, layer)
    ensures RunParallel(evm, ctx, limit, RunRound(evm, ctx, limit, p, tagged, layer), tagged, rest)
            != RunSequential(evm, ctx, limit, p, tagged, layer + Flatten(rest))
  {
    HashesApart(tagged, layer, Flatten(rest));
    RunConcat(evm, ctx, limit, p, tagged, layer, Flatten(rest));
    var hash := FaithlessRound(evm, ctx, limit, p, tagged, layer);
    ParallelCounts(evm, ctx, limit, RunRound(evm, ctx, limit, p, tagged, layer), tagged, rest, hash);
    SequentialCounts(evm, ctx, limit, RunSequential(evm, ctx, limit, p, tagged, layer), tagged, Flatten(rest), hash);
  }

  lemma {:induction false} GasStaysInRange(evm: Evm, ctx: BlockCtx, limit: nat, p: Progress, tagged: Tagged,
      order: seq<nat>)
    requires Positions(tagged, order) && p.block.gasUsed <= U64_MAX
    ensures RunSequential(evm, ctx, limit, p, tagged, order).block.gasUsed <= U64_MAX
    decreases |order|
  {
    if order != [] {
      var (miner, tx) := tagged[order[0]];
      GasStaysInRange(evm, ctx, limit, Step(evm, ctx, limit, p, miner, tx), tagged, order[1..]);
    }
  }
}
