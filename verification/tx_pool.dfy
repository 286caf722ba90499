// The pool as an object: admission, removal, eviction, pruning, selection.
module TxPools {
  import opened Blocks
  import opened Seqs
  import opened Pool
  import opened SortedKeys
  import opened Selection

  predicate Stale(t: PooledTx, nonces: Address -> nat) {
    t.submitted.nonce < nonces(t.submitted.tx.sender)
  }

  function Live(held: map<nat, PooledTx>, nonces: Address -> nat): map<nat, PooledTx> {
    map h | h in held && !Stale(held[h], nonces) :: held[h]
  }

  lemma LiveAreLeft(held: map<nat, PooledTx>, nonces: Address -> nat, stale: seq<nat>)
    requires forall h :: h in stale <==> h in held && Stale(held[h], nonces)
    ensures held - Elems(stale) == Live(held, nonces)
  {
  }

  class TxPool {
    const config: Config
    var byHash: map<nat, PooledTx>
    var bySender: Queues
    var sequence: nat

    ghost function View(): State
      reads this
    {
      State(byHash, bySender, sequence)
    }

    ghost predicate Valid()
      reads this
    {
      Sound(config, View())
    }

    constructor (config: Config)
      ensures Valid() && View() == EMPTY && this.config == config
    {
      this.config := config;
      byHash, bySender, sequence := map[], map[], 0;
    }

    // `add`
    method Add(s: Submission, fee: nat, account: nat, balance: nat) returns (r: Admission)
      requires Valid()
      modifies this
      ensures Valid()
      ensures (View(), r) == old(Admit(config, View(), s, fee, account, balance))
    {
      AdmitKeepsSound(config, View(), s, fee, account, balance);
      var fault := Fault(config, State(byHash, bySender, sequence), s, account, balance);
      if fault.Some? {
        return Refused(fault.value);
      }
      r := Enter(s, fee);
    }

    // The rest of `add`, once the transaction itself is in order.
    method Enter(s: Submission, fee: nat) returns (r: Admission)
      requires Valid() && s.tx.hash !in byHash
      modifies this
      ensures var refusal := old(Refusal(config, View(), s, fee));
        if refusal.Some? then r == Refused(refusal.value) && View() == Refusing(old(View()), refusal.value)
        else r == Admitted(s.tx.hash) && old(Numbered(Placed(View(), s))) && View() == old(Settled(config, fee, Placed(View(), s)))
    {
      ghost var before := View();
      var queue := QueueOf(State(byHash, bySender, sequence), s.tx.sender);
      var replacing := s.nonce in queue;
      assert Replaced(before, s) == if replacing then Some(queue[s.nonce]) else None;
      if !replacing && |queue| >= config.maxPerSender {
        return Refused(TooManyFromSender(s.tx.sender, config.maxPerSender));
      }
      PlacedIsSound(config, View(), s);
      ReplacedIsHeld(View(), s);
      sequence := sequence + 1;
      assert View() == before.(sequence := before.sequence + 1);
      if replacing {
        var existing := queue[s.nonce];
        var tip := EffectiveTip(fee, byHash[existing].submitted);
        assert TipToBeat(fee, before, s) == Some(tip);
        if EffectiveTip(fee, s) <= tip {
          return Refused(ReplacementUnderpriced(EffectiveTip(fee, s), tip));
        }
        var gone := Remove(existing);
      }
      assert View() == Cleared(before, s);
      assert Refusal(config, before, s, fee) == None;
      Insert(PooledTx(s, sequence));
      assert View() == Placed(before, s);
      if |byHash| > config.maxTransactions {
        EvictWorst(fee);
      }
      r := Admitted(s.tx.hash);
    }

    method Insert(t: PooledTx)
      modifies this`byHash, this`bySender
      ensures View() == Inserted(old(View()), t)
    {
      var tx := t.submitted.tx;
      bySender := bySender[tx.sender := QueueOf(State(byHash, bySender, sequence),
          tx.sender)[t.submitted.nonce := tx.hash]];
      byHash := byHash[tx.hash := t];
    }

    // `remove`
    method Remove(hash: nat) returns (r: Option<PooledTx>)
      modifies this`byHash, this`bySender
      ensures View() == Removed(old(View()), hash)
      ensures r == if hash in old(byHash) then Some(old(byHash)[hash]) else None
    {
      if hash !in byHash {
        return None;
      }
      var pooled := byHash[hash];
      var sender, nonce := pooled.submitted.tx.sender, pooled.submitted.nonce;
      byHash := byHash - {hash};
      if sender in bySender {
        var nonces := bySender[sender] - {nonce};
        bySender := if nonces == map[] then bySender - {sender} else bySender[sender := nonces];
      }
      r := Some(pooled);
    }

    // `evict_worst`: a minimum over the held transactions, in any order.
    method EvictWorst(fee: nat)
      requires Indexed(View()) && Numbered(View())
      modifies this`byHash, this`bySender
      ensures View() == Evicted(fee, old(View()))
    {
      var worst: Option<nat> := None;
      var pending := byHash.Keys;
      while pending != {}
        invariant pending <= byHash.Keys
        invariant worst.None? <==> pending == byHash.Keys
        invariant worst.Some? ==> worst.value in byHash.Keys - pending
        invariant forall h :: worst.Some? && h in byHash.Keys - pending && h != worst.value ==>
          Cheaper(fee, byHash[worst.value], byHash[h])
        decreases pending
      {
        var h :| h in pending;
        if worst.None? || Cheaper(fee, byHash[h], byHash[worst.value]) {
          worst := Some(h);
        }
        pending := pending - {h};
      }
      if worst.Some? {
        WorstIsUnique(fee, byHash, worst.value, Worst(fee, View()));
        var gone := Remove(worst.value);
      }
    }

    // `prune`: drops what newly executed state has made obsolete.
    method Prune(nonces: Address -> nat)
      requires Valid()
      modifies this`byHash, this`bySender
      ensures Valid()
      ensures byHash == Live(old(byHash), nonces)
    {
      var stale := StaleHashes(nonces);
      ghost var goal := RemovedAll(View(), stale);
      RemovedAllKeepsSound(config, View(), stale);
      RemovedAllLeaves(View(), stale);
      LiveAreLeft(byHash, nonces, stale);
      for i := 0 to |stale|
        invariant goal == RemovedAll(View(), stale[i..])
      {
        assert stale[i..][1..] == stale[i + 1..];
        var gone := Remove(stale[i]);
      }
      assert stale[|stale|..] == [];
    }

    method StaleHashes(nonces: Address -> nat) returns (stale: seq<nat>)
      ensures forall h :: h in stale <==> h in byHash && Stale(byHash[h], nonces)
    {
      stale := [];
      var pending := byHash.Keys;
      while pending != {}
        invariant pending <= byHash.Keys
        invariant forall h :: h in stale <==> h in byHash.Keys - pending && Stale(byHash[h], nonces)
        decreases pending
      {
        var h :| h in pending;
        pending := pending - {h};
        if Stale(byHash[h], nonces) {
          stale := stale + [h];
        }
      }
    }

    // `best_transactions`
    method BestTransactions(fee: nat, limit: nat) returns (out: seq<nat>)
      requires Valid()
      ensures out == Best(fee, View(), limit)
    {
      var heads := InOrder(bySender.Keys);
      var taken: Taken := map[];
      out := [];
      ghost var goal := BestFrom(fee, View(), heads, taken, out, limit);
      while |out| < limit
        invariant |out| <= limit
        invariant goal == BestFrom(fee, View(), heads, taken, out, limit)
        decreases limit - |out|
      {
        var best := BestOpen(fee, taken, heads, out, limit);
        if best.None? {
          return;
        }
        out := out + [best.value];
        taken := Advance(taken, byHash[best.value].submitted.tx.sender);
      }
    }

    // One round: the best head, and what taking it leaves to do.
    method BestOpen(fee: nat, taken: Taken, heads: seq<Address>, ghost out: seq<nat>,
        ghost limit: nat) returns (best: Option<nat>)
      requires Valid() && heads == Ascending(bySender.Keys) && |out| < limit
      ensures best.Some? ==> best.value in byHash
      ensures best.Some? ==>
        BestFrom(fee, View(), heads, taken, out, limit)
        == BestFrom(fee, View(), heads, Advance(taken, SenderOf(View(), best.value)), out + [best.value], limit)
      ensures best.None? ==> BestFrom(fee, View(), heads, taken, out, limit) == out
    {
      AscendingLists(bySender.Keys);
      best := BestHead(fee, taken, heads);
      PickIsGreatest(fee, View(), taken, heads, None);
      if best.Some? {
        BestFromTakes(fee, View(), heads, taken, out, limit, best.value);
      }
    }

    method BestHead(fee: nat, taken: Taken, heads: seq<Address>) returns (best: Option<nat>)
      requires Valid() && forall s :: s in heads ==> s in bySender
      ensures best == Pick(fee, View(), taken, heads, None)
    {
      best := None;
      for i := 0 to |heads|
        invariant Pick(fee, View(), taken, heads, None) == Pick(fee, View(), taken, heads[i..], best)
      {
        assert heads[i..][1..] == heads[i + 1..];
        var head := NextOf(taken, heads[i]);
        if head.Some? && Beats(fee, State(byHash, bySender, sequence), head.value, best) {
          best := head;
        }
      }
      assert heads[|heads|..] == [];
    }

    // `nth(skip)` of a sender's queue.
    method NextOf(taken: Taken, sender: Address) returns (head: Option<nat>)
      requires sender in bySender
      ensures head == Head(View(), taken, sender)
    {
      var nonces := InOrder(bySender[sender].Keys);
      AscendingLists(bySender[sender].Keys);
      var skip := Count(taken, sender);
      if skip < |nonces| {
        assert nonces[skip] in nonces;
        head := Some(bySender[sender][nonces[skip]]);
      } else {
        head := None;
      }
    }
  }
}
