// What validation would have to ask besides, for a committed round to be the
// sequential one whatever its transactions do with what they read.
module RoundGuard {
  import opened Blocks
  import opened Compact
  import opened WorldStates
  import opened Execution
  import opened Parallel
  import opened SpeculativeCommit

  // Along the committed round: a transaction not executable before it is met, within
  // budget, only while nothing has changed yet.
  predicate Undisturbed(evm: Evm, s: Accounts, ctx: BlockCtx, limit: nat, p: Progress, credited: Credits,
                        tagged: Tagged, layer: seq<nat>, specs: seq<Speculation>)
    requires Positions(tagged, layer) && |layer| == |specs|
    decreases |layer|
  {
    layer == [] ||
    var (miner, tx) := tagged[layer[0]];
    var (p', credited') := CommitStep(limit, p, credited, miner, tx, specs[0]);
    && (!OverBudget(p.block, tx, limit) && evm(s, ctx, miner, tx).None? ==> ApplyCredits(p.accounts, credited) == s)
    && Undisturbed(evm, s, ctx, limit, p', credited', tagged, layer[1..], specs[1..])
  }

  predicate GuardedFrom(evm: Evm, s: Accounts, ctx: BlockCtx, limit: nat, p: Progress, credited: Credits,
                        tagged: Tagged, layer: seq<nat>, specs: seq<Speculation>)
    requires Positions(tagged, layer) && |layer| == |specs|
  {
    && LooksApart(evm, s, ctx, limit, p, credited, tagged, layer, specs)
    && Undisturbed(evm, s, ctx, limit, p, credited, tagged, layer, specs)
  }

  // The guard `validate` lacks, computed from the state before the round: no
  // executed transaction read an account that an earlier one credits, and no
  // other one is met, within budget, once something has changed.
  predicate Guarded(evm: Evm, ctx: BlockCtx, limit: nat, p: Progress, tagged: Tagged, layer: seq<nat>)
    requires Positions(tagged, layer)
  {
    GuardedFrom(evm, p.accounts, ctx, limit, p, [], tagged, layer, Speculate(evm, p.accounts, ctx, tagged, layer))
  }

  /* ---------- guarded rounds ---------- */

  lemma AbreastAccounts(evm: Evm, s: Accounts, ctx: BlockCtx, tagged: Tagged, layer: seq<nat>, i: nat,
                        p: Progress, credited: Credits, q: Progress)
    requires Committable(evm, s, ctx, tagged, layer) && i <= |layer|
    requires Abreast(evm, s, ctx, tagged, layer, i, p, credited, q)
    ensures q.accounts == ApplyCredits(p.accounts, credited)
  {
    forall a ensures Get(q.accounts, a) == Get(ApplyCredits(p.accounts, credited), a) {
      ApplyCreditsAt(p.accounts, credited, a);
    }
    SameAccounts(q.accounts, ApplyCredits(p.accounts, credited));
  }

  // One transaction on, both ways.
  lemma NextAbreast(evm: Evm, s: Accounts, ctx: BlockCtx, limit: nat, tagged: Tagged, layer: seq<nat>, i: nat,
                    p: Progress, credited: Credits, q: Progress)
    requires Committable(evm, s, ctx, tagged, layer) && i < |layer|
    requires Abreast(evm, s, ctx, tagged, layer, i, p, credited, q)
    requires var e := Proper(evm, s, ctx, tagged, layer, i);
      !OverBudget(p.block, TxAt(tagged, layer, i), limit) ==>
        if e.Some? then LooksAway(e.value, credited) else ApplyCredits(p.accounts, credited) == s
    ensures var miner, tx := Miner(tagged, layer, i), TxAt(tagged, layer, i);
      var (p', credited') := CommitStep(limit, p, credited, miner, tx, Speculate(evm, s, ctx, tagged, layer)[i]);
      Abreast(evm, s, ctx, tagged, layer, i + 1, p', credited', Step(evm, ctx, limit, q, miner, tx))
  {
    SpeculationIsProper(evm, s, ctx, tagged, layer, i);
    AbreastAccounts(evm, s, ctx, tagged, layer, i, p, credited, q);
    if !OverBudget(p.block, TxAt(tagged, layer, i), limit) && Proper(evm, s, ctx, tagged, layer, i).Some? {
      StepStaysAbreast(evm, s, ctx, limit, tagged, layer, i, p, credited, q);
    } else {
      DeferStaysAbreast(evm, s, ctx, tagged, layer, i, p, credited, q);
    }
  }

  lemma DeferStaysAbreast(evm: Evm, s: Accounts, ctx: BlockCtx, tagged: Tagged, layer: seq<nat>, i: nat,
                          p: Progress, credited: Credits, q: Progress)
    requires Committable(evm, s, ctx, tagged, layer) && i < |layer|
    requires Abreast(evm, s, ctx, tagged, layer, i, p, credited, q)
    ensures Abreast(evm, s, ctx, tagged, layer, i + 1, Defer(p), credited, Defer(q))
  {
  }

  lemma {:induction false} GuardedNoneAwakes(evm: Evm, s: Accounts, ctx: BlockCtx, limit: nat, tagged: Tagged,
      layer: seq<nat>, i: nat,
                                             p: Progress, credited: Credits, q: Progress)
    requires Committable(evm, s, ctx, tagged, layer) && i <= |layer| && Positions(tagged, layer[i..])
    requires Abreast(evm, s, ctx, tagged, layer, i, p, credited, q)
    requires GuardedFrom(evm, s, ctx, limit, p, credited, tagged, layer[i..], Speculate(evm, s, ctx, tagged, layer)[i..])
    ensures NoneAwakes(evm, s, ctx, limit, q, tagged, layer[i..])
    decreases |layer| - i
  {
    if i < |layer| {
      var specs := Speculate(evm, s, ctx, tagged, layer);
      var miner, tx := Miner(tagged, layer, i), TxAt(tagged, layer, i);
      var (p', credited') := CommitStep(limit, p, credited, miner, tx, specs[i]);
      assert layer[i..][1..] == layer[i + 1..] && specs[i..][1..] == specs[i + 1..];
      AbreastAccounts(evm, s, ctx, tagged, layer, i, p, credited, q);
      NextAbreast(evm, s, ctx, limit, tagged, layer, i, p, credited, q);
      GuardedNoneAwakes(evm, s, ctx, limit, tagged, layer, i + 1, p', credited', Step(evm, ctx, limit, q, miner, tx));
    }
  }

  lemma GuardedCommitIsSequential(evm: Evm, ctx: BlockCtx, limit: nat, p: Progress, tagged: Tagged, layer: seq<nat>)
    requires Committable(evm, p.accounts, ctx, tagged, layer) && Guarded(evm, ctx, limit, p, tagged, layer)
    ensures RunRound(evm, ctx, limit, p, tagged, layer) == RunSequential(evm, ctx, limit, p, tagged, layer)
  {
    var specs := Speculate(evm, p.accounts, ctx, tagged, layer);
    assert layer[0..] == layer && specs[0..] == specs;
    GuardedNoneAwakes(evm, p.accounts, ctx, limit, tagged, layer, 0, p, [], p);
    AwakeningDecides(evm, ctx, limit, p, tagged, layer);
  }

  /* ---------- an EVM that tells ---------- */

  // Like another, but one transaction does as before only where what it reads is
  // as it was.
  ghost function Wary(evm: Evm, s: Accounts, ctx: BlockCtx, miner: Address, tx: Tx, alarm: Effect): Evm {
    (s': Accounts, ctx': BlockCtx, miner': Address, tx': Tx) =>
      if (ctx', miner', tx') != (ctx, miner, tx) then evm(s', ctx', miner', tx')
      else if SameOn(s, s', alarm.readSet) then evm(s, ctx, miner, tx)
      else Some(alarm)
  }

  // The two differ at one transaction only, and not before the round.
  ghost predicate Alters(evm: Evm, evm': Evm, s: Accounts, tx: Tx) {
    forall s': Accounts, ctx': BlockCtx, miner': Address, tx': Tx {:trigger evm'(s', ctx', miner', tx')} ::
      tx'.hash != tx.hash || s' == s ==> evm'(s', ctx', miner', tx') == evm(s', ctx', miner', tx')
  }

  // As lawful as the other.
  ghost predicate AsLawful(evm: Evm, evm': Evm) {
    && (Framed(evm) ==> Framed(evm')) && (HonestFlags(evm) ==> HonestFlags(evm')) && (GasBounded(evm) ==> GasBounded(evm'))
  }

  lemma WaryIsLawful(evm: Evm, s: Accounts, ctx: BlockCtx, miner: Address, tx: Tx, alarm: Effect)
    requires Framed(evm) && alarm.changes == map[] && alarm.gasUsed <= tx.gasLimit
    requires evm(s, ctx, miner, tx).Some? ==> evm(s, ctx, miner, tx).value.readSet == alarm.readSet
    ensures AsLawful(evm, Wary(evm, s, ctx, miner, tx, alarm))
    ensures Alters(evm, Wary(evm, s, ctx, miner, tx, alarm), s, tx)
  {
    var wary := Wary(evm, s, ctx, miner, tx, alarm);
    WaryIsFramed(evm, s, ctx, miner, tx, alarm);
    if HonestFlags(evm) { WaryIsHonest(evm, s, ctx, miner, tx, alarm); }
    if GasBounded(evm) {
      forall s': Accounts, c: BlockCtx, m: Address, t: Tx | wary(s', c, m, t).Some? ensures wary(s', c, m, t).value.gasUsed <= t.gasLimit {
        assert evm(s, c, m, t).Some? ==> evm(s, c, m, t).value.gasUsed <= t.gasLimit;
      }
    }
  }

  lemma WaryIsFramed(evm: Evm, s: Accounts, ctx: BlockCtx, miner: Address, tx: Tx, alarm: Effect)
    requires alarm.changes == map[] && Framed(evm)
    requires evm(s, ctx, miner, tx).Some? ==> evm(s, ctx, miner, tx).value.readSet == alarm.readSet
    ensures Framed(Wary(evm, s, ctx, miner, tx, alarm))
  {
    var wary := Wary(evm, s, ctx, miner, tx, alarm);
    forall s': Accounts, c: BlockCtx, m: Address, t: Tx | wary(s', c, m, t).Some?
      ensures wary(s', c, m, t).value.changes.Keys <= wary(s', c, m, t).value.readSet
    {
      assert evm(s, c, m, t).Some? ==> evm(s, c, m, t).value.changes.Keys <= evm(s, c, m, t).value.readSet;
    }
    forall s1: Accounts, s2: Accounts, c: BlockCtx, m: Address, t: Tx
      | wary(s1, c, m, t).Some? && SameOn(s1, s2, wary(s1, c, m, t).value.readSet)
      ensures wary(s2, c, m, t) == wary(s1, c, m, t)
    {
      if (c, m, t) == (ctx, miner, tx) {
        assert SameOn(s, s1, alarm.readSet) <==> SameOn(s, s2, alarm.readSet);
      } else {
        assert evm(s2, c, m, t) == evm(s1, c, m, t);
      }
    }
  }

  lemma WaryIsHonest(evm: Evm, s: Accounts, ctx: BlockCtx, miner: Address, tx: Tx, alarm: Effect)
    requires alarm.changes == map[] && HonestFlags(evm)
    requires evm(s, ctx, miner, tx).Some? ==> evm(s, ctx, miner, tx).value.changes.Keys <= alarm.readSet
    ensures HonestFlags(Wary(evm, s, ctx, miner, tx, alarm))
  {
    var wary := Wary(evm, s, ctx, miner, tx, alarm);
    forall s': Accounts, c: BlockCtx, m: Address, t: Tx, a: Address | wary(s', c, m, t).Some? && a in wary(s', c, m, t).value.changes
      ensures HonestEntry(Get(s', a), wary(s', c, m, t).value.changes[a])
    {
      if (c, m, t) != (ctx, miner, tx) {
        assert HonestEntry(Get(s', a), evm(s', c, m, t).value.changes[a]);
      } else if SameOn(s, s', alarm.readSet) {
        assert HonestEntry(Get(s, a), evm(s, c, m, t).value.changes[a]);
        assert Get(s', a) == Get(s, a);
      }
    }
  }

  /* ---------- what an unguarded round lets pass ---------- */

  // No account credited already holds the largest balance there is.
  ghost predicate CreditsTell(s: Accounts, credited: Credits) {
    forall c :: c in credited && c.1 > 0 ==> InfoOf(Get(s, c.0)).balance < U256_MAX
  }

  ghost predicate Payable(s: Accounts, tagged: Tagged, layer: seq<nat>, specs: seq<Speculation>)
    requires Positions(tagged, layer) && |layer| == |specs|
  {
    forall i {:trigger specs[i]} :: 0 <= i < |layer| && specs[i].feeCredit > 0 ==>
      InfoOf(Get(s, Miner(tagged, layer, i))).balance < U256_MAX
  }

  // A credit shows in the balance.
  lemma {:induction false} CreditShows(v: Option<AccountState>, credits: Credits, c: (Address, nat))
    requires c in credits && c.1 > 0 && InfoOf(v).balance < U256_MAX
    ensures InfoOf(CreditAt(v, credits, c.0)).balance > InfoOf(v).balance
    decreases |credits|
  {
    var next := if credits[0].0 == c.0 then CreditOne(v, credits[0].1) else v;
    if credits[0].0 == c.0 && credits[0].1 > 0 {
      CreditsGrow(next, credits[1..], c.0);
    } else {
      assert next == v && c in credits[1..];
      CreditShows(v, credits[1..], c);
    }
  }

  // A credited account it read, the transaction sees changed.
  lemma LookSeesCredit(evm: Evm, s: Accounts, ctx: BlockCtx, tagged: Tagged, layer: seq<nat>, i: nat,
                       p: Progress, credited: Credits, q: Progress)
    requires Committable(evm, s, ctx, tagged, layer) && i < |layer|
    requires Abreast(evm, s, ctx, tagged, layer, i, p, credited, q) && CreditsTell(s, credited)
    requires Proper(evm, s, ctx, tagged, layer, i).Some?
    requires !LooksAway(Proper(evm, s, ctx, tagged, layer, i).value, credited)
    ensures !SameOn(s, q.accounts, Proper(evm, s, ctx, tagged, layer, i).value.readSet)
  {
    var c :| c in credited && c.1 > 0 && c.0 in Proper(evm, s, ctx, tagged, layer, i).value.readSet;
    ReadsWereLeft(evm, s, ctx, tagged, layer, i, p, credited, q);
    CreditShows(Get(p.accounts, c.0), credited, c);
    assert Get(q.accounts, c.0) != Get(s, c.0);
  }

  // Where a transaction breaches the guard, a wary one tells.
  lemma BreachTells(evm: Evm, s: Accounts, ctx: BlockCtx, limit: nat, tagged: Tagged, layer: seq<nat>, i: nat,
                    p: Progress, credited: Credits, q: Progress)
    returns (evm': Evm)
    requires Committable(evm, s, ctx, tagged, layer) && i < |layer|
    requires Abreast(evm, s, ctx, tagged, layer, i, p, credited, q) && CreditsTell(s, credited)
    requires !OverBudget(p.block, TxAt(tagged, layer, i), limit)
    requires var e := Proper(evm, s, ctx, tagged, layer, i);
      if e.Some? then !LooksAway(e.value, credited) else ApplyCredits(p.accounts, credited) != s
    ensures AsLawful(evm, evm') && Alters(evm, evm', s, TxAt(tagged, layer, i))
    ensures !SameReceipt(q.block, Speculate(evm, s, ctx, tagged, layer)[i].result,
                         Transact(evm', q.accounts, ctx, Miner(tagged, layer, i), TxAt(tagged, layer, i)))
  {
    var miner, tx := Miner(tagged, layer, i), TxAt(tagged, layer, i);
    SpeculationIsProper(evm, s, ctx, tagged, layer, i);
    match evm(s, ctx, miner, tx)
    case Some(e) =>
      var gas := if e.gasUsed <= tx.gasLimit then e.gasUsed else 0;
      var alarm := Effect(e.success, gas, e.logs + 1, map[], e.readSet);
      LookSeesCredit(evm, s, ctx, tagged, layer, i, p, credited, q);
      WaryIsLawful(evm, s, ctx, miner, tx, alarm);
      evm' := Wary(evm, s, ctx, miner, tx, alarm);
    case None =>
      AbreastAccounts(evm, s, ctx, tagged, layer, i, p, credited, q);
      var a := Differs(s, q.accounts);
      var alarm := Effect(true, 0, 0, map[], {a});
      WaryIsLawful(evm, s, ctx, miner, tx, alarm);
      evm' := Wary(evm, s, ctx, miner, tx, alarm);
  }

  lemma Differs(s: Accounts, s': Accounts) returns (a: Address)
    requires s != s'
    ensures Get(s, a) != Get(s', a) && !SameOn(s, s', {a})
  {
    if forall a :: Get(s, a) == Get(s', a) {
      SameAccounts(s, s');
    }
    a :| Get(s, a) != Get(s', a);
  }

  lemma StepIsAltered(evm: Evm, evm': Evm, s: Accounts, altered: Tx, ctx: BlockCtx, limit: nat, q: Progress,
      miner: Address, tx: Tx)
    requires Alters(evm, evm', s, altered) && tx.hash != altered.hash
    ensures Step(evm', ctx, limit, q, miner, tx) == Step(evm, ctx, limit, q, miner, tx)
  {
  }

  lemma CreditsStillTell(s: Accounts, limit: nat, p: Progress, credited: Credits, miner: Address, tx: Tx,
      spec: Speculation)
    requires CreditsTell(s, credited) && (spec.feeCredit > 0 ==> InfoOf(Get(s, miner)).balance < U256_MAX)
    ensures CreditsTell(s, CommitStep(limit, p, credited, miner, tx, spec).1)
  {
  }

  // What tells from the second transaction on tells from the first.
  lemma TellsFromFirst(evm: Evm, evm': Evm, s: Accounts, tx: Tx, ctx: BlockCtx, limit: nat, p: Progress, q: Progress,
      credited: Credits,
                       tagged: Tagged, rest: seq<nat>, specs: seq<Speculation>)
    requires Positions(tagged, rest) && |rest| == |specs| && rest != [] && DistinctHashes(tagged, rest)
    requires Alters(evm, evm', s, tx) && Carries(tagged, rest[1..], tx.hash)
    requires var (miner, head) := tagged[rest[0]];
      var (p', credited') := CommitStep(limit, p, credited, miner, head, specs[0]);
      Telltale(CommitRound(limit, p', credited', tagged, rest[1..], specs[1..]).0.block,
               RunSequential(evm', ctx, limit, Step(evm, ctx, limit, q, miner, head), tagged, rest[1..]).block, tx.hash)
    ensures Carries(tagged, rest, tx.hash)
    ensures Telltale(CommitRound(limit, p, credited, tagged, rest, specs).0.block,
                     RunSequential(evm', ctx, limit, q, tagged, rest).block, tx.hash)
  {
    var (miner, head) := tagged[rest[0]];
    FirstIsAlone(tagged, rest);
    CarriesCons(tagged, rest, tx.hash);
    StepIsAltered(evm, evm', s, tx, ctx, limit, q, miner, head);
  }

  // The first breach is found with the two runs still side by side.
  lemma {:induction false} BreachShows(evm: Evm, s: Accounts, ctx: BlockCtx, limit: nat, tagged: Tagged,
      layer: seq<nat>, i: nat,
                                       p: Progress, credited: Credits, q: Progress)
    returns (evm': Evm, tx: Tx)
    requires Committable(evm, s, ctx, tagged, layer) && i <= |layer| && Positions(tagged, layer[i..])
    requires DistinctHashes(tagged, layer[i..]) && Payable(s, tagged, layer, Speculate(evm, s, ctx, tagged, layer))
    requires Abreast(evm, s, ctx, tagged, layer, i, p, credited, q) && CreditsTell(s, credited)
    requires !GuardedFrom(evm, s, ctx, limit, p, credited, tagged, layer[i..], Speculate(evm, s, ctx, tagged, layer)[i..])
    ensures AsLawful(evm, evm') && Alters(evm, evm', s, tx) && Carries(tagged, layer[i..], tx.hash)
    ensures Telltale(CommitRound(limit, p, credited, tagged, layer[i..], Speculate(evm, s, ctx, tagged, layer)[i..]).0.block,
                     RunSequential(evm', ctx, limit, q, tagged, layer[i..]).block, tx.hash)
    decreases |layer| - i
  {
    var specs := Speculate(evm, s, ctx, tagged, layer);
    var rest, e := layer[i..], Proper(evm, s, ctx, tagged, layer, i);
    var miner, head := Miner(tagged, layer, i), TxAt(tagged, layer, i);
    if !OverBudget(p.block, head, limit)
       && (if e.Some? then !LooksAway(e.value, credited) else ApplyCredits(p.accounts, credited) != s)
    {
      evm' := BreachTells(evm, s, ctx, limit, tagged, layer, i, p, credited, q);
      tx := head;
      assert tagged[rest[0]].1 == head;
      OtherwiseShows(evm', ctx, limit, p, q, credited, tagged, rest, specs[i..]);
    } else {
      assert rest[1..] == layer[i + 1..] && specs[i..][1..] == specs[i + 1..];
      var (p', credited') := CommitStep(limit, p, credited, miner, head, specs[i]);
      NextAbreast(evm, s, ctx, limit, tagged, layer, i, p, credited, q);
      CreditsStillTell(s, limit, p, credited, miner, head, specs[i]);
      FirstIsAlone(tagged, rest);
      evm', tx := BreachShows(evm, s, ctx, limit, tagged, layer, i + 1, p', credited',
          Step(evm, ctx, limit, q, miner, head));
      TellsFromFirst(evm, evm', s, tx, ctx, limit, p, q, credited, tagged, rest, specs[i..]);
    }
  }

  /* ---------- the guard, exactly ---------- */

  // Before the round the two do the same with each of its transactions.
  ghost predicate SameBefore(evm: Evm, evm': Evm, s: Accounts, ctx: BlockCtx, tagged: Tagged, layer: seq<nat>)
    requires Positions(tagged, layer)
  {
    forall i {:trigger Proper(evm, s, ctx, tagged, layer, i)} :: 0 <= i < |layer| ==>
      Proper(evm', s, ctx, tagged, layer, i) == Proper(evm, s, ctx, tagged, layer, i)
  }

  lemma {:induction false} GuardIsLocal(evm: Evm, evm': Evm, s: Accounts, ctx: BlockCtx, limit: nat, p: Progress,
      credited: Credits,
                                        tagged: Tagged, layer: seq<nat>, specs: seq<Speculation>)
    requires Positions(tagged, layer) && |layer| == |specs|
    requires forall i :: 0 <= i < |layer| ==>
      evm'(s, ctx, tagged[layer[i]].0, tagged[layer[i]].1) == evm(s, ctx, tagged[layer[i]].0, tagged[layer[i]].1)
    ensures GuardedFrom(evm, s, ctx, limit, p, credited, tagged, layer, specs)
            <==> GuardedFrom(evm', s, ctx, limit, p, credited, tagged, layer, specs)
    decreases |layer|
  {
    if layer != [] {
      var (miner, tx) := tagged[layer[0]];
      var (p', credited') := CommitStep(limit, p, credited, miner, tx, specs[0]);
      assert forall i :: 0 <= i < |layer| - 1 ==> layer[1..][i] == layer[i + 1];
      GuardIsLocal(evm, evm', s, ctx, limit, p', credited', tagged, layer[1..], specs[1..]);
    }
  }

  lemma SameVerdict(evm: Evm, evm': Evm, ctx: BlockCtx, limit: nat, p: Progress, tagged: Tagged, layer: seq<nat>)
    requires Positions(tagged, layer) && SameBefore(evm, evm', p.accounts, ctx, tagged, layer)
    ensures Speculate(evm', p.accounts, ctx, tagged, layer) == Speculate(evm, p.accounts, ctx, tagged, layer)
    ensures Guarded(evm', ctx, limit, p, tagged, layer) <==> Guarded(evm, ctx, limit, p, tagged, layer)
  {
    var specs := Speculate(evm, p.accounts, ctx, tagged, layer);
    forall i | 0 <= i < |layer|
      ensures evm'(p.accounts, ctx, tagged[layer[i]].0, tagged[layer[i]].1)
              == evm(p.accounts, ctx, tagged[layer[i]].0, tagged[layer[i]].1)
      ensures Speculate(evm', p.accounts, ctx, tagged, layer)[i] == specs[i]
    {
      assert Proper(evm', p.accounts, ctx, tagged, layer, i) == Proper(evm, p.accounts, ctx, tagged, layer, i);
    }
    assert Speculate(evm', p.accounts, ctx, tagged, layer) == specs;
    GuardIsLocal(evm, evm', p.accounts, ctx, limit, p, [], tagged, layer, specs);
  }

  // An unguarded round: an EVM as lawful, speculating the same and so validated the
  // same, with which committing it is not running it in order.
  lemma UnguardedRoundShows(evm: Evm, ctx: BlockCtx, limit: nat, p: Progress, tagged: Tagged, layer: seq<nat>)
    returns (evm': Evm, tx: Tx)
    requires Committable(evm, p.accounts, ctx, tagged, layer) && DistinctHashes(tagged, layer)
    requires Payable(p.accounts, tagged, layer, Speculate(evm, p.accounts, ctx, tagged, layer))
    requires !Guarded(evm, ctx, limit, p, tagged, layer)
    ensures AsLawful(evm, evm') && Alters(evm, evm', p.accounts, tx)
    ensures SameBefore(evm, evm', p.accounts, ctx, tagged, layer)
    ensures Carries(tagged, layer, tx.hash)
    ensures Telltale(RunRound(evm', ctx, limit, p, tagged, layer).block, RunSequential(evm', ctx, limit, p, tagged, layer).block, tx.hash)
  {
    var specs := Speculate(evm, p.accounts, ctx, tagged, layer);
    assert layer[0..] == layer && specs[0..] == specs;
    evm', tx := BreachShows(evm, p.accounts, ctx, limit, tagged, layer, 0, p, [], p);
    SameVerdict(evm, evm', ctx, limit, p, tagged, layer);
  }

  // A validated round commits to what running it in order gives - accounts, undo
  // record, gas, receipts and counts - with every lawful EVM that speculates the
  // same, if and only if it is guarded.
  lemma SpeculativeCommitIsSequential(evm: Evm, ctx: BlockCtx, limit: nat, p: Progress, tagged: Tagged, layer: seq<nat>)
    requires Framed(evm) && HonestFlags(evm) && Positions(tagged, layer) && DistinctHashes(tagged, layer)
    requires Independent(Speculate(evm, p.accounts, ctx, tagged, layer))
    requires Payable(p.accounts, tagged, layer, Speculate(evm, p.accounts, ctx, tagged, layer))
    ensures Guarded(evm, ctx, limit, p, tagged, layer)
            <==> forall evm': Evm {:trigger SameBefore(evm, evm', p.accounts, ctx, tagged, layer)} ::
                   Framed(evm') && HonestFlags(evm') && SameBefore(evm, evm', p.accounts, ctx, tagged, layer) ==>
                     RunRound(evm', ctx, limit, p, tagged, layer) == RunSequential(evm', ctx, limit, p, tagged, layer)
  {
    HonestEntriesKept(evm, p.accounts, ctx, tagged, layer);
    if Guarded(evm, ctx, limit, p, tagged, layer) {
      forall evm': Evm | Framed(evm') && HonestFlags(evm') && SameBefore(evm, evm', p.accounts, ctx, tagged, layer)
        ensures RunRound(evm', ctx, limit, p, tagged, layer) == RunSequential(evm', ctx, limit, p, tagged, layer)
      {
        SameVerdict(evm, evm', ctx, limit, p, tagged, layer);
        HonestEntriesKept(evm', p.accounts, ctx, tagged, layer);
        GuardedCommitIsSequential(evm', ctx, limit, p, tagged, layer);
      }
    } else {
      var evm', tx := UnguardedRoundShows(evm, ctx, limit, p, tagged, layer);
      assert SameBefore(evm, evm', p.accounts, ctx, tagged, layer);
    }
  }
}
