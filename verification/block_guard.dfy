// When executing a block in rounds is executing it one transaction at a time,
// whatever the transactions do: exactly when every round is guarded.
module BlockGuard {
  import opened Blocks
  import opened WorldStates
  import opened Execution
  import opened Rounds
  import opened Parallel
  import opened SpeculativeCommit
  import opened ParallelBlock
  import opened RoundGuard

  // A committed round is guarded; a fallback round overdraws nothing.
  predicate RoundIsGuarded(evm: Evm, ctx: BlockCtx, limit: nat, p: Progress, tagged: Tagged, layer: seq<nat>)
    requires Positions(tagged, layer)
  {
    if Independent(Speculate(evm, p.accounts, ctx, tagged, layer)) then Guarded(evm, ctx, limit, p, tagged, layer)
    else SameDecisions(evm, ctx, limit, p.block, Progress(p.accounts, EMPTY_BLOCK), tagged, layer)
  }

  predicate GuardedRounds(evm: Evm, ctx: BlockCtx, limit: nat, p: Progress, tagged: Tagged, layers: seq<seq<nat>>)
    requires AllPositions(tagged, layers)
    decreases |layers|
  {
    layers != [] ==>
    && RoundIsGuarded(evm, ctx, limit, p, tagged, layers[0])
    && GuardedRounds(evm, ctx, limit, RunRound(evm, ctx, limit, p, tagged, layers[0]), tagged, layers[1..])
  }

  // No beneficiary a committed round credits holds the largest balance there is.
  ghost predicate PayableRounds(evm: Evm, ctx: BlockCtx, limit: nat, p: Progress, tagged: Tagged, layers: seq<seq<nat>>)
    requires AllPositions(tagged, layers)
    decreases |layers|
  {
    layers != [] ==>
    && (Independent(Speculate(evm, p.accounts, ctx, tagged, layers[0])) ==>
          Payable(p.accounts, tagged, layers[0], Speculate(evm, p.accounts, ctx, tagged, layers[0])))
    && PayableRounds(evm, ctx, limit, RunRound(evm, ctx, limit, p, tagged, layers[0]), tagged, layers[1..])
  }

  /* ---------- guarded blocks ---------- */

  lemma GuardedRound(evm: Evm, ctx: BlockCtx, limit: nat, p: Progress, tagged: Tagged, layer: seq<nat>)
    requires Framed(evm) && HonestFlags(evm) && Positions(tagged, layer) && p.block.gasUsed <= U64_MAX
    requires RoundIsGuarded(evm, ctx, limit, p, tagged, layer)
    ensures RunRound(evm, ctx, limit, p, tagged, layer) == RunSequential(evm, ctx, limit, p, tagged, layer)
  {
    if Independent(Speculate(evm, p.accounts, ctx, tagged, layer)) {
      HonestEntriesKept(evm, p.accounts, ctx, tagged, layer);
      GuardedCommitIsSequential(evm, ctx, limit, p, tagged, layer);
    } else {
      FallbackRejoins(evm, ctx, limit, p.block, Progress(p.accounts, EMPTY_BLOCK), tagged, layer);
      RejoinEmpty(p);
    }
  }

  lemma {:induction false} GuardedBlockIsSequential(evm: Evm, ctx: BlockCtx, limit: nat, p: Progress, tagged: Tagged,
      layers: seq<seq<nat>>)
    requires Framed(evm) && HonestFlags(evm) && AllPositions(tagged, layers) && p.block.gasUsed <= U64_MAX
    requires GuardedRounds(evm, ctx, limit, p, tagged, layers)
    ensures Positions(tagged, Flatten(layers))
    ensures RunParallel(evm, ctx, limit, p, tagged, layers)
            == RunSequential(evm, ctx, limit, p, tagged, Flatten(layers))
    decreases |layers|
  {
    FlatPositions(tagged, layers);
    if layers != [] {
      var layer, rest := layers[0], layers[1..];
      GuardedRound(evm, ctx, limit, p, tagged, layer);
      GasStaysInRange(evm, ctx, limit, p, tagged, layer);
      GuardedBlockIsSequential(evm, ctx, limit, RunRound(evm, ctx, limit, p, tagged, layer), tagged, rest);
      RunConcat(evm, ctx, limit, p, tagged, layer, Flatten(rest));
    }
  }

  /* ---------- what executing in rounds can see of an EVM ---------- */

  // Two EVMs do the same with every transaction a fallback round runs.
  predicate SameSteps(evm: Evm, evm': Evm, ctx: BlockCtx, limit: nat, p: Progress, tagged: Tagged, order: seq<nat>)
    requires Positions(tagged, order)
    decreases |order|
  {
    order == [] ||
    var (miner, tx) := tagged[order[0]];
    && (OverBudget(p.block, tx, limit) || evm'(p.accounts, ctx, miner, tx) == evm(p.accounts, ctx, miner, tx))
    && SameSteps(evm, evm', ctx, limit, Step(evm, ctx, limit, p, miner, tx), tagged, order[1..])
  }

  ghost predicate SameRound(evm: Evm, evm': Evm, ctx: BlockCtx, limit: nat, p: Progress, tagged: Tagged,
      layer: seq<nat>)
    requires Positions(tagged, layer)
  {
    && SameBefore(evm, evm', p.accounts, ctx, tagged, layer)
    && (Independent(Speculate(evm, p.accounts, ctx, tagged, layer))
        || SameSteps(evm, evm', ctx, limit, Progress(p.accounts, EMPTY_BLOCK), tagged, layer))
  }

  // Executing the block in rounds, the two do the same wherever they are asked.
  ghost predicate SameRounds(evm: Evm, evm': Evm, ctx: BlockCtx, limit: nat, p: Progress, tagged: Tagged,
      layers: seq<seq<nat>>)
    requires AllPositions(tagged, layers)
    decreases |layers|
  {
    layers != [] ==>
    && SameRound(evm, evm', ctx, limit, p, tagged, layers[0])
    && SameRounds(evm, evm', ctx, limit, RunRound(evm, ctx, limit, p, tagged, layers[0]), tagged, layers[1..])
  }

  // A lawful EVM that executing the block in rounds cannot tell from this one.
  ghost predicate Twin(evm: Evm, evm': Evm, ctx: BlockCtx, limit: nat, p: Progress, tagged: Tagged,
      layers: seq<seq<nat>>)
    requires AllPositions(tagged, layers)
  {
    Framed(evm') && HonestFlags(evm') && SameRounds(evm, evm', ctx, limit, p, tagged, layers)
  }

  lemma {:induction false} SameStepsRunAlike(evm: Evm, evm': Evm, ctx: BlockCtx, limit: nat, base: ExecutedBlock,
      p: Progress,
                                             tagged: Tagged, order: seq<nat>)
    requires Positions(tagged, order) && SameSteps(evm, evm', ctx, limit, p, tagged, order)
    ensures RunSequential(evm', ctx, limit, p, tagged, order) == RunSequential(evm, ctx, limit, p, tagged, order)
    ensures SameDecisions(evm', ctx, limit, base, p, tagged, order)
            <==> SameDecisions(evm, ctx, limit, base, p, tagged, order)
    decreases |order|
  {
    if order != [] {
      var (miner, tx) := tagged[order[0]];
      assert Step(evm', ctx, limit, p, miner, tx) == Step(evm, ctx, limit, p, miner, tx);
      SameStepsRunAlike(evm, evm', ctx, limit, base, Step(evm, ctx, limit, p, miner, tx), tagged, order[1..]);
    }
  }

  lemma SameRoundRunsAlike(evm: Evm, evm': Evm, ctx: BlockCtx, limit: nat, p: Progress, tagged: Tagged, layer: seq<nat>)
    requires Positions(tagged, layer) && SameRound(evm, evm', ctx, limit, p, tagged, layer)
    ensures RunRound(evm', ctx, limit, p, tagged, layer) == RunRound(evm, ctx, limit, p, tagged, layer)
    ensures RoundIsGuarded(evm', ctx, limit, p, tagged, layer) <==> RoundIsGuarded(evm, ctx, limit, p, tagged, layer)
  {
    SameVerdict(evm, evm', ctx, limit, p, tagged, layer);
    if !Independent(Speculate(evm, p.accounts, ctx, tagged, layer)) {
      SameStepsRunAlike(evm, evm', ctx, limit, p.block, Progress(p.accounts, EMPTY_BLOCK), tagged, layer);
    }
  }

  lemma {:induction false} SameRoundsGuardAlike(evm: Evm, evm': Evm, ctx: BlockCtx, limit: nat, p: Progress,
      tagged: Tagged, layers: seq<seq<nat>>)
    requires AllPositions(tagged, layers) && SameRounds(evm, evm', ctx, limit, p, tagged, layers)
    ensures GuardedRounds(evm', ctx, limit, p, tagged, layers) <==> GuardedRounds(evm, ctx, limit, p, tagged, layers)
    decreases |layers|
  {
    if layers != [] {
      SameRoundRunsAlike(evm, evm', ctx, limit, p, tagged, layers[0]);
      SameRoundsGuardAlike(evm, evm', ctx, limit, RunRound(evm, ctx, limit, p, tagged, layers[0]), tagged, layers[1..]);
    }
  }

  /* ---------- unguarded blocks ---------- */

  // The two differ at transactions of one hash only.
  ghost predicate DifferAt(evm: Evm, evm': Evm, hash: nat) {
    forall s: Accounts, ctx: BlockCtx, miner: Address, tx: Tx {:trigger evm'(s, ctx, miner, tx)} ::
      tx.hash != hash ==> evm'(s, ctx, miner, tx) == evm(s, ctx, miner, tx)
  }

  lemma {:induction false} ElsewhereSameSteps(evm: Evm, evm': Evm, hash: nat, ctx: BlockCtx, limit: nat, p: Progress,
      tagged: Tagged, order: seq<nat>)
    requires DifferAt(evm, evm', hash) && Positions(tagged, order) && !Carries(tagged, order, hash)
    ensures SameSteps(evm, evm', ctx, limit, p, tagged, order)
    decreases |order|
  {
    if order != [] {
      CarriesCons(tagged, order, hash);
      var (miner, tx) := tagged[order[0]];
      ElsewhereSameSteps(evm, evm', hash, ctx, limit, Step(evm, ctx, limit, p, miner, tx), tagged, order[1..]);
    }
  }

  lemma ElsewhereSameRound(evm: Evm, evm': Evm, hash: nat, ctx: BlockCtx, limit: nat, p: Progress, tagged: Tagged,
      layer: seq<nat>)
    requires DifferAt(evm, evm', hash) && Positions(tagged, layer) && !Carries(tagged, layer, hash)
    ensures SameRound(evm, evm', ctx, limit, p, tagged, layer)
  {
    ElsewhereSameSteps(evm, evm', hash, ctx, limit, Progress(p.accounts, EMPTY_BLOCK), tagged, layer);
  }

  lemma {:induction false} ElsewhereSameRounds(evm: Evm, evm': Evm, hash: nat, ctx: BlockCtx, limit: nat, p: Progress,
      tagged: Tagged, layers: seq<seq<nat>>)
    requires DifferAt(evm, evm', hash) && AllPositions(tagged, layers)
    requires Positions(tagged, Flatten(layers)) && !Carries(tagged, Flatten(layers), hash)
    ensures SameRounds(evm, evm', ctx, limit, p, tagged, layers)
    decreases |layers|
  {
    if layers != [] {
      HashesApart(tagged, layers[0], Flatten(layers[1..]));
      ElsewhereSameRound(evm, evm', hash, ctx, limit, p, tagged, layers[0]);
      ElsewhereSameRounds(evm, evm', hash, ctx, limit, RunRound(evm, ctx, limit, p, tagged, layers[0]), tagged,
          layers[1..]);
    }
  }

  lemma RoundGrows(evm: Evm, ctx: BlockCtx, limit: nat, p: Progress, tagged: Tagged, layer: seq<nat>)
    requires Positions(tagged, layer)
    ensures p.block.receipts <= RunRound(evm, ctx, limit, p, tagged, layer).block.receipts
  {
    CommitGrows(limit, p, [], tagged, layer, Speculate(evm, p.accounts, ctx, tagged, layer));
  }

  lemma {:induction false} ParallelGrows(evm: Evm, ctx: BlockCtx, limit: nat, p: Progress, tagged: Tagged,
      layers: seq<seq<nat>>)
    requires AllPositions(tagged, layers)
    ensures p.block.receipts <= RunParallel(evm, ctx, limit, p, tagged, layers).block.receipts
    decreases |layers|
  {
    if layers != [] {
      RoundGrows(evm, ctx, limit, p, tagged, layers[0]);
      ParallelGrows(evm, ctx, limit, RunRound(evm, ctx, limit, p, tagged, layers[0]), tagged, layers[1..]);
    }
  }

  // What one round leaves different, no later round makes equal.
  lemma TelltaleLasts(evm: Evm, ctx: BlockCtx, limit: nat, p: Progress, q: Progress, tagged: Tagged,
      rest: seq<seq<nat>>, hash: nat)
    requires AllPositions(tagged, rest) && Positions(tagged, Flatten(rest)) && !Carries(tagged, Flatten(rest), hash)
    requires Telltale(p.block, q.block, hash)
    ensures RunParallel(evm, ctx, limit, p, tagged, rest) != RunSequential(evm, ctx, limit, q, tagged, Flatten(rest))
  {
    ParallelCounts(evm, ctx, limit, p, tagged, rest, hash);
    SequentialCounts(evm, ctx, limit, q, tagged, Flatten(rest), hash);
    ParallelGrows(evm, ctx, limit, p, tagged, rest);
    SequentialGrows(evm, ctx, limit, q, tagged, Flatten(rest));
    var a, b := RunParallel(evm, ctx, limit, p, tagged, rest).block,
        RunSequential(evm, ctx, limit, q, tagged, Flatten(rest)).block;
    assert forall k :: 0 <= k < |p.block.receipts| ==> a.receipts[k] == p.block.receipts[k];
    assert forall k :: 0 <= k < |q.block.receipts| ==> b.receipts[k] == q.block.receipts[k];
  }

  // An unguarded round tells, of this EVM or of one that differs at a transaction of
  // the round.
  lemma UnguardedRoundTells(evm: Evm, ctx: BlockCtx, limit: nat, p: Progress, tagged: Tagged, layer: seq<nat>)
    returns (evm': Evm, hash: nat)
    requires Framed(evm) && HonestFlags(evm) && Positions(tagged, layer) && DistinctHashes(tagged, layer)
    requires p.block.gasUsed <= U64_MAX
    requires var specs := Speculate(evm, p.accounts, ctx, tagged, layer);
      Independent(specs) ==> Payable(p.accounts, tagged, layer, specs)
    requires !RoundIsGuarded(evm, ctx, limit, p, tagged, layer)
    ensures AsLawful(evm, evm') && DifferAt(evm, evm', hash) && Carries(tagged, layer, hash)
    ensures SameRound(evm, evm', ctx, limit, p, tagged, layer)
    ensures Telltale(RunRound(evm', ctx, limit, p, tagged, layer).block, RunSequential(evm', ctx, limit, p, tagged, layer).block, hash)
  {
    if Independent(Speculate(evm, p.accounts, ctx, tagged, layer)) {
      HonestEntriesKept(evm, p.accounts, ctx, tagged, layer);
      var tx;
      evm', tx := UnguardedRoundShows(evm, ctx, limit, p, tagged, layer);
      hash := tx.hash;
    } else {
      evm' := evm;
      hash := OverdraftIsRecorded(evm, ctx, limit, p.block, Progress(p.accounts, EMPTY_BLOCK), tagged, layer);
      RejoinEmpty(p);
      SameAsItself(evm, ctx, limit, Progress(p.accounts, EMPTY_BLOCK), tagged, layer);
    }
  }

  lemma {:induction false} SameAsItself(evm: Evm, ctx: BlockCtx, limit: nat, p: Progress, tagged: Tagged,
      order: seq<nat>)
    requires Positions(tagged, order)
    ensures SameSteps(evm, evm, ctx, limit, p, tagged, order)
    decreases |order|
  {
    if order != [] {
      var (miner, tx) := tagged[order[0]];
      SameAsItself(evm, ctx, limit, Step(evm, ctx, limit, p, miner, tx), tagged, order[1..]);
    }
  }

  // An unguarded block: an EVM as lawful, with which executing it in rounds goes the
  // same way, and is not executing it in order.
  lemma {:induction false} UnguardedBlockShows(evm: Evm, ctx: BlockCtx, limit: nat, p: Progress, tagged: Tagged,
      layers: seq<seq<nat>>)
    returns (evm': Evm, hash: nat)
    requires Framed(evm) && HonestFlags(evm) && AllPositions(tagged, layers) && p.block.gasUsed <= U64_MAX
    requires Positions(tagged, Flatten(layers)) && DistinctHashes(tagged, Flatten(layers))
    requires PayableRounds(evm, ctx, limit, p, tagged, layers) && !GuardedRounds(evm, ctx, limit, p, tagged, layers)
    ensures AsLawful(evm, evm') && DifferAt(evm, evm', hash) && Carries(tagged, Flatten(layers), hash)
    ensures SameRounds(evm, evm', ctx, limit, p, tagged, layers)
    ensures RunParallel(evm', ctx, limit, p, tagged, layers) != RunSequential(evm', ctx, limit, p, tagged, Flatten(layers))
    decreases |layers|
  {
    var layer, rest := layers[0], layers[1..];
    HashesApart(tagged, layer, Flatten(rest));
    if RoundIsGuarded(evm, ctx, limit, p, tagged, layer) {
      var q := RunRound(evm, ctx, limit, p, tagged, layer);
      GuardedRound(evm, ctx, limit, p, tagged, layer);
      GasStaysInRange(evm, ctx, limit, p, tagged, layer);
      evm', hash := UnguardedBlockShows(evm, ctx, limit, q, tagged, rest);
      ShowsFromFirst(evm, evm', hash, ctx, limit, p, tagged, layer, rest);
    } else {
      evm', hash := UnguardedRoundTells(evm, ctx, limit, p, tagged, layer);
      FirstRoundShows(evm, evm', hash, ctx, limit, p, tagged, layer, rest);
    }
  }

  lemma ShowsFromFirst(evm: Evm, evm': Evm, hash: nat, ctx: BlockCtx, limit: nat, p: Progress, tagged: Tagged,
      layer: seq<nat>, rest: seq<seq<nat>>)
    requires AllPositions(tagged, [layer] + rest) && Positions(tagged, layer) && AllPositions(tagged, rest)
    requires Positions(tagged, Flatten(rest))
    requires DifferAt(evm, evm', hash) && !Carries(tagged, layer, hash)
    requires var q := RunRound(evm, ctx, limit, p, tagged, layer);
      && q == RunSequential(evm, ctx, limit, p, tagged, layer)
      && SameRounds(evm, evm', ctx, limit, q, tagged, rest)
      && RunParallel(evm', ctx, limit, q, tagged, rest) != RunSequential(evm', ctx, limit, q, tagged, Flatten(rest))
    ensures SameRound(evm, evm', ctx, limit, p, tagged, layer) && Positions(tagged, layer + Flatten(rest))
    ensures RunParallel(evm', ctx, limit, RunRound(evm', ctx, limit, p, tagged, layer), tagged, rest)
            != RunSequential(evm', ctx, limit, p, tagged, layer + Flatten(rest))
  {
    ElsewhereSameRound(evm, evm', hash, ctx, limit, p, tagged, layer);
    SameRoundRunsAlike(evm, evm', ctx, limit, p, tagged, layer);
    ElsewhereSameSteps(evm, evm', hash, ctx, limit, p, tagged, layer);
    SameStepsRunAlike(evm, evm', ctx, limit, EMPTY_BLOCK, p, tagged, layer);
    RunConcat(evm', ctx, limit, p, tagged, layer, Flatten(rest));
  }

  lemma FirstRoundShows(evm: Evm, evm': Evm, hash: nat, ctx: BlockCtx, limit: nat, p: Progress, tagged: Tagged,
      layer: seq<nat>, rest: seq<seq<nat>>)
    requires Positions(tagged, layer) && AllPositions(tagged, rest) && Positions(tagged, Flatten(rest))
    requires DifferAt(evm, evm', hash) && !Carries(tagged, Flatten(rest), hash)
    requires Telltale(RunRound(evm', ctx, limit, p, tagged, layer).block, RunSequential(evm', ctx, limit, p, tagged, layer).block, hash)
    ensures SameRounds(evm, evm', ctx, limit, RunRound(evm, ctx, limit, p, tagged, layer), tagged, rest)
    ensures Positions(tagged, layer + Flatten(rest))
    ensures RunParallel(evm', ctx, limit, RunRound(evm', ctx, limit, p, tagged, layer), tagged, rest)
            != RunSequential(evm', ctx, limit, p, tagged, layer + Flatten(rest))
  {
    ElsewhereSameRounds(evm, evm', hash, ctx, limit, RunRound(evm, ctx, limit, p, tagged, layer), tagged, rest);
    RunConcat(evm', ctx, limit, p, tagged, layer, Flatten(rest));
    TelltaleLasts(evm', ctx, limit, RunRound(evm', ctx, limit, p, tagged, layer),
        RunSequential(evm', ctx, limit, p, tagged, layer), tagged, rest, hash);
  }

  lemma GuardedRunsAlike(evm: Evm, evm': Evm, ctx: BlockCtx, limit: nat, p: Progress, tagged: Tagged,
      layers: seq<seq<nat>>)
    requires AllPositions(tagged, layers) && p.block.gasUsed <= U64_MAX
    requires GuardedRounds(evm, ctx, limit, p, tagged, layers)
    requires Twin(evm, evm', ctx, limit, p, tagged, layers)
    ensures Positions(tagged, Flatten(layers))
    ensures RunParallel(evm', ctx, limit, p, tagged, layers)
            == RunSequential(evm', ctx, limit, p, tagged, Flatten(layers))
  {
    SameRoundsGuardAlike(evm, evm', ctx, limit, p, tagged, layers);
    GuardedBlockIsSequential(evm', ctx, limit, p, tagged, layers);
  }

  // Executing a block in rounds equals executing the rounds laid end to end in order,
  // with every lawful EVM that the rounds cannot tell from this one, if and only if
  // every round is guarded.
  lemma ParallelIsSequential(evm: Evm, ctx: BlockCtx, limit: nat, p: Progress, tagged: Tagged, layers: seq<seq<nat>>)
    requires Framed(evm) && HonestFlags(evm) && AllPositions(tagged, layers) && p.block.gasUsed <= U64_MAX
    requires Positions(tagged, Flatten(layers)) && DistinctHashes(tagged, Flatten(layers))
    requires PayableRounds(evm, ctx, limit, p, tagged, layers)
    ensures GuardedRounds(evm, ctx, limit, p, tagged, layers)
            <==> forall evm': Evm {:trigger Twin(evm, evm', ctx, limit, p, tagged, layers)} ::
                   Twin(evm, evm', ctx, limit, p, tagged, layers) ==>
                     RunParallel(evm', ctx, limit, p, tagged, layers) == RunSequential(evm', ctx, limit, p, tagged, Flatten(layers))
  {
    if GuardedRounds(evm, ctx, limit, p, tagged, layers) {
      forall evm': Evm | Twin(evm, evm', ctx, limit, p, tagged, layers)
        ensures RunParallel(evm', ctx, limit, p, tagged, layers)
                == RunSequential(evm', ctx, limit, p, tagged, Flatten(layers))
      {
        GuardedRunsAlike(evm, evm', ctx, limit, p, tagged, layers);
      }
    } else {
      var evm', hash := UnguardedBlockShows(evm, ctx, limit, p, tagged, layers);
      assert Twin(evm, evm', ctx, limit, p, tagged, layers);
    }
  }
}
