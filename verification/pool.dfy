// The transaction pool: two indexes that mirror each other, two limits, and the
// greedy merge over sender queues.
module Pool {
  import opened Blocks
  import opened Compact
  import opened Seqs
  import opened Execution

  // What is submitted: the transaction, and what admission looks at beside it.
  datatype Submission = Submission(tx: Tx, nonce: nat, chainId: Option<nat>, blob: bool, value: nat)

  datatype PooledTx = PooledTx(submitted: Submission, sequence: nat)

  datatype Config = Config(maxTransactions: nat, maxPerSender: nat, chainId: nat, maxTxGasLimit: nat)

  datatype PoolError =
    | AlreadyKnown(hash: nat)
    | WrongChainId(found: Option<nat>, expected: nat)
    | BlobTransaction(hash: nat)
    | GasLimitTooHigh(gasFound: nat, gasMost: nat)
    | NonceTooLow(nonceFound: nat, account: nat)
    | InsufficientFunds(required: nat, available: nat)
    | TooManyFromSender(sender: Address, most: nat)
    | ReplacementUnderpriced(offered: nat, existing: nat)

  datatype Admission = Admitted(hash: nat) | Refused(error: PoolError)

  type Queues = map<Address, map<nat, nat>>

  datatype State = State(byHash: map<nat, PooledTx>, bySender: Queues, sequence: nat)

  const EMPTY := State(map[], map[], 0)

  // `effective_tip`
  function EffectiveTip(fee: nat, s: Submission): nat {
    if s.tx.maxFee <= fee then 0
    else
      var cap := if s.tx.maxPriority.Some? then s.tx.maxPriority.value else 0;
      if cap < s.tx.maxFee - fee then cap else s.tx.maxFee - fee
  }

  // The tip ordering uses is the tip execution pays, except for a transaction
  // that declares no priority cap and offers more than the base fee.
  lemma TipIsWhatMinersEarn(ctx: BlockCtx, s: Submission)
    ensures EffectiveTip(ctx.baseFee, s) == Tip(ctx, s.tx) <==> s.tx.maxPriority.Some? || s.tx.maxFee <= ctx.baseFee
  {
  }

  function Mul256(a: nat, b: nat): U256 {
    if a * b > U256_MAX then U256_MAX else a * b
  }

  function MaxCost(s: Submission): U256 {
    Add256(Mul256(s.tx.maxFee, s.tx.gasLimit), s.value)
  }

  /* ---------- the two indexes ---------- */

  function QueueOf(p: State, sender: Address): map<nat, nat> {
    if sender in p.bySender then p.bySender[sender] else map[]
  }

  function SenderOf(p: State, hash: nat): Address
    requires hash in p.byHash
  {
    p.byHash[hash].submitted.tx.sender
  }

  function NonceOf(p: State, hash: nat): nat
    requires hash in p.byHash
  {
    p.byHash[hash].submitted.nonce
  }

  // A held transaction stands in its sender's queue, at its nonce.
  ghost predicate Queued(p: State, hash: nat)
    requires hash in p.byHash
  {
    && p.byHash[hash].submitted.tx.hash == hash
    && NonceOf(p, hash) in QueueOf(p, SenderOf(p, hash))
    && QueueOf(p, SenderOf(p, hash))[NonceOf(p, hash)] == hash
  }

  // A queue entry names a held transaction with that sender and nonce.
  ghost predicate Held(p: State, sender: Address, nonce: nat)
    requires nonce in QueueOf(p, sender)
  {
    var hash := QueueOf(p, sender)[nonce];
    hash in p.byHash && SenderOf(p, hash) == sender && NonceOf(p, hash) == nonce
  }

  // The indexes are inverse, and no empty queue is kept.
  ghost predicate Indexed(p: State) {
    && (forall hash {:trigger Queued(p, hash)} :: hash in p.byHash ==> Queued(p, hash))
    && (forall s, n {:trigger Held(p, s, n)} :: n in QueueOf(p, s) ==> Held(p, s, n))
    && forall s :: s in p.bySender ==> p.bySender[s] != map[]
  }

  // Arrival numbers are distinct.
  ghost predicate Numbered(p: State) {
    && (forall hash :: hash in p.byHash ==> p.byHash[hash].sequence <= p.sequence)
    && forall a, b :: a in p.byHash && b in p.byHash && a != b ==> p.byHash[a].sequence != p.byHash[b].sequence
  }

  ghost predicate Bounded(config: Config, p: State) {
    |p.byHash| <= config.maxTransactions && QueuesBounded(config, p)
  }

  ghost predicate Sound(config: Config, p: State) {
    Indexed(p) && Numbered(p) && Bounded(config, p)
  }

  /* ---------- removal ---------- */

  function WithoutNonce(queues: Queues, sender: Address, nonce: nat): Queues {
    if sender !in queues then queues
    else if queues[sender] - {nonce} == map[] then queues - {sender}
    else queues[sender := queues[sender] - {nonce}]
  }

  // `remove`
  function Removed(p: State, hash: nat): State {
    if hash !in p.byHash then p
    else State(p.byHash - {hash}, WithoutNonce(p.bySender, SenderOf(p, hash), NonceOf(p, hash)), p.sequence)
  }

  lemma RemovedQueue(p: State, hash: nat, s: Address)
    requires hash in p.byHash
    ensures QueueOf(Removed(p, hash), s)
            == if s == SenderOf(p, hash) then QueueOf(p, s) - {NonceOf(p, hash)} else QueueOf(p, s)
  {
  }

  lemma RemovedKeepsIndexed(p: State, hash: nat)
    requires Indexed(p)
    ensures Indexed(Removed(p, hash)) && Removed(p, hash).byHash == p.byHash - {hash}
  {
    if hash in p.byHash {
      var q := Removed(p, hash);
      assert Queued(p, hash);
      forall h | h in q.byHash ensures Queued(q, h) {
        assert Queued(p, h);
        RemovedQueue(p, hash, SenderOf(p, h));
      }
      forall s, n | n in QueueOf(q, s) ensures Held(q, s, n) {
        RemovedQueue(p, hash, s);
        assert Held(p, s, n);
      }
    }
  }

  lemma RemovedIsSmaller(p: State, hash: nat)
    requires hash in p.byHash
    ensures |Removed(p, hash).byHash| == |p.byHash| - 1
    ensures forall s :: s in Removed(p, hash).bySender ==> s in p.bySender && |Removed(p, hash).bySender[s]| <= |p.bySender[s]|
  {
    var q := Removed(p, hash);
    assert q.byHash.Keys == p.byHash.Keys - {hash};
    forall s | s in q.bySender ensures s in p.bySender && |q.bySender[s]| <= |p.bySender[s]| {
      assert q.bySender[s].Keys <= p.bySender[s].Keys;
      SubsetCount(q.bySender[s].Keys, p.bySender[s].Keys);
    }
  }

  // Removal keeps the pool sound and takes out exactly the one transaction.
  lemma RemovedKeepsSound(config: Config, p: State, hash: nat)
    requires Sound(config, p)
    ensures Sound(config, Removed(p, hash)) && Removed(p, hash).byHash == p.byHash - {hash}
  {
    RemovedKeepsIndexed(p, hash);
    if hash in p.byHash {
      RemovedIsSmaller(p, hash);
    }
  }

  function RemovedAll(p: State, hashes: seq<nat>): State
    decreases |hashes|
  {
    if hashes == [] then p else RemovedAll(Removed(p, hashes[0]), hashes[1..])
  }

  lemma {:induction false} RemovedAllKeepsSound(config: Config, p: State, hashes: seq<nat>)
    requires Sound(config, p)
    ensures Sound(config, RemovedAll(p, hashes))
    decreases |hashes|
  {
    if hashes != [] {
      RemovedKeepsSound(config, p, hashes[0]);
      RemovedAllKeepsSound(config, Removed(p, hashes[0]), hashes[1..]);
    }
  }

  lemma {:induction false} RemovedAllLeaves(p: State, hashes: seq<nat>)
    ensures RemovedAll(p, hashes).byHash == p.byHash - Elems(hashes)
    decreases |hashes|
  {
    if hashes == [] {
      assert p.byHash - Elems(hashes) == p.byHash;
    } else {
      assert Removed(p, hashes[0]).byHash == p.byHash - {hashes[0]};
      RemovedAllLeaves(Removed(p, hashes[0]), hashes[1..]);
      assert Elems(hashes) == {hashes[0]} + Elems(hashes[1..]);
      MinusTwice(p.byHash, {hashes[0]}, Elems(hashes[1..]));
    }
  }

  lemma MinusTwice(m: map<nat, PooledTx>, a: set<nat>, b: set<nat>)
    ensures m - a - b == m - (a + b)
  {
  }

  /* ---------- insertion ---------- */

  function Inserted(p: State, t: PooledTx): State {
    var tx := t.submitted.tx;
    State(p.byHash[tx.hash := t], p.bySender[tx.sender := QueueOf(p, tx.sender)[t.submitted.nonce := tx.hash]], p.sequence)
  }

  lemma InsertedKeepsIndexed(p: State, t: PooledTx)
    requires Indexed(p) && t.submitted.tx.hash !in p.byHash
    requires t.submitted.nonce !in QueueOf(p, t.submitted.tx.sender)
    ensures Indexed(Inserted(p, t))
  {
    var q := Inserted(p, t);
    var tx := t.submitted.tx;
    forall h | h in q.byHash ensures Queued(q, h) {
      if h != tx.hash { assert Queued(p, h); }
    }
    forall s, n | n in QueueOf(q, s) ensures Held(q, s, n) {
      if s != tx.sender || n != t.submitted.nonce { assert Held(p, s, n); }
    }
  }

  lemma InsertedKeepsNumbered(p: State, t: PooledTx)
    requires Numbered(p) && t.submitted.tx.hash !in p.byHash && t.sequence <= p.sequence
    requires forall h :: h in p.byHash ==> p.byHash[h].sequence < t.sequence
    ensures Numbered(Inserted(p, t)) && |Inserted(p, t).byHash| == |p.byHash| + 1
  {
    assert Inserted(p, t).byHash.Keys == p.byHash.Keys + {t.submitted.tx.hash};
  }

  // The per-sender limit holds: the total limit is eviction's to restore.
  ghost predicate QueuesBounded(config: Config, p: State) {
    forall s :: s in p.bySender ==> |p.bySender[s]| <= config.maxPerSender
  }

  lemma InsertedKeepsQueuesBounded(config: Config, p: State, t: PooledTx)
    requires QueuesBounded(config, p)
    requires t.submitted.nonce !in QueueOf(p, t.submitted.tx.sender)
    requires |QueueOf(p, t.submitted.tx.sender)| < config.maxPerSender
    ensures QueuesBounded(config, Inserted(p, t))
  {
    var queue := QueueOf(p, t.submitted.tx.sender);
    assert queue[t.submitted.nonce := t.submitted.tx.hash].Keys == queue.Keys + {t.submitted.nonce};
  }

  /* ---------- eviction ---------- */

  // `a` is evicted before `b`: a lower tip, the newer of equals.
  predicate Cheaper(fee: nat, a: PooledTx, b: PooledTx) {
    || EffectiveTip(fee, a.submitted) < EffectiveTip(fee, b.submitted)
    || (EffectiveTip(fee, a.submitted) == EffectiveTip(fee, b.submitted) && a.sequence > b.sequence)
  }

  ghost predicate IsWorst(fee: nat, held: map<nat, PooledTx>, hash: nat) {
    hash in held && forall h :: h in held && h != hash ==> Cheaper(fee, held[hash], held[h])
  }

  lemma WorstIsUnique(fee: nat, held: map<nat, PooledTx>, a: nat, b: nat)
    requires IsWorst(fee, held, a) && IsWorst(fee, held, b)
    ensures a == b
  {
  }

  // The transaction `evict_worst` removes.
  ghost function Worst(fee: nat, p: State): (hash: nat)
    requires Numbered(p) && p.byHash != map[]
    ensures IsWorst(fee, p.byHash, hash)
  {
    var hash := CheapestOf(fee, p, p.byHash.Keys);
    assert IsWorst(fee, p.byHash, hash);
    hash
  }

  ghost predicate Cheapest(fee: nat, p: State, hashes: set<nat>, w: nat)
    requires hashes <= p.byHash.Keys
  {
    w in hashes && forall h :: h in hashes && h != w ==> Cheaper(fee, p.byHash[w], p.byHash[h])
  }

  ghost function CheapestOf(fee: nat, p: State, hashes: set<nat>): (w: nat)
    requires Numbered(p) && hashes <= p.byHash.Keys && hashes != {}
    ensures Cheapest(fee, p, hashes, w)
    decreases hashes
  {
    var x :| x in hashes;
    var rest := hashes - {x};
    if rest == {} then
      assert hashes == {x};
      x
    else
      var w := CheapestOf(fee, p, rest);
      assert forall h :: h in hashes ==> h == x || h in rest;
      if Cheaper(fee, p.byHash[x], p.byHash[w]) then x else w
  }

  ghost function Evicted(fee: nat, p: State): State
    requires Numbered(p)
  {
    if p.byHash == map[] then p else Removed(p, Worst(fee, p))
  }

  lemma EvictedKeepsSound(config: Config, fee: nat, p: State)
    requires Indexed(p) && Numbered(p) && QueuesBounded(config, p) && |p.byHash| == config.maxTransactions + 1
    ensures Sound(config, Evicted(fee, p))
  {
    var worst := Worst(fee, p);
    RemovedKeepsIndexed(p, worst);
    RemovedIsSmaller(p, worst);
  }

  /* ---------- admission ---------- */

  // The checks that look at the transaction alone.
  function Fault(config: Config, p: State, s: Submission, account: nat, balance: nat): Option<PoolError> {
    if s.tx.hash in p.byHash then Some(AlreadyKnown(s.tx.hash))
    else if s.chainId != Some(config.chainId) then Some(WrongChainId(s.chainId, config.chainId))
    else if s.blob then Some(BlobTransaction(s.tx.hash))
    else if s.tx.gasLimit > config.maxTxGasLimit then Some(GasLimitTooHigh(s.tx.gasLimit, config.maxTxGasLimit))
    else if s.nonce < account then Some(NonceTooLow(s.nonce, account))
    else if balance < MaxCost(s) then Some(InsufficientFunds(MaxCost(s), balance))
    else None
  }

  // The held transaction with the submission's sender and nonce.
  function Replaced(p: State, s: Submission): Option<nat> {
    if s.nonce in QueueOf(p, s.tx.sender) then Some(QueueOf(p, s.tx.sender)[s.nonce]) else None
  }

  lemma ReplacedIsHeld(p: State, s: Submission)
    requires Indexed(p)
    ensures Replaced(p, s).Some? ==>
      var h := Replaced(p, s).value; h in p.byHash && SenderOf(p, h) == s.tx.sender && NonceOf(p, h) == s.nonce
  {
    if Replaced(p, s).Some? {
      assert Held(p, s.tx.sender, s.nonce);
    }
  }

  // The tip a replacement must beat.
  function TipToBeat(fee: nat, p: State, s: Submission): Option<nat> {
    match Replaced(p, s)
    case None => None
    case Some(h) => if h in p.byHash then Some(EffectiveTip(fee, p.byHash[h].submitted)) else None
  }

  function Refusal(config: Config, p: State, s: Submission, fee: nat): Option<PoolError> {
    if Replaced(p, s).None? && |QueueOf(p, s.tx.sender)| >= config.maxPerSender then
      Some(TooManyFromSender(s.tx.sender, config.maxPerSender))
    else match TipToBeat(fee, p, s)
      case Some(tip) => if EffectiveTip(fee, s) <= tip then Some(ReplacementUnderpriced(EffectiveTip(fee, s), tip)) else None
      case None => None
  }

  // A refusal for being underpriced still uses up an arrival number.
  function Refusing(p: State, error: PoolError): State {
    if error.ReplacementUnderpriced? then p.(sequence := p.sequence + 1) else p
  }

  // The pool with room made for the submission.
  function Cleared(p: State, s: Submission): State {
    var p1 := p.(sequence := p.sequence + 1);
    if Replaced(p, s).Some? then Removed(p1, Replaced(p, s).value) else p1
  }

  // The pool with the submission in, before the total limit is looked at.
  function Placed(p: State, s: Submission): State {
    Inserted(Cleared(p, s), PooledTx(s, p.sequence + 1))
  }

  // Over the total limit, the cheapest goes.
  ghost function Settled(config: Config, fee: nat, q: State): State
    requires Numbered(q)
  {
    if |q.byHash| > config.maxTransactions then Evicted(fee, q) else q
  }

  // `add`
  ghost function Admit(config: Config, p: State, s: Submission, fee: nat, account: nat, balance: nat): (State,
      Admission)
    requires Sound(config, p)
  {
    match Fault(config, p, s, account, balance)
    case Some(error) => (p, Refused(error))
    case None =>
      match Refusal(config, p, s, fee)
      case Some(error) => (Refusing(p, error), Refused(error))
      case None =>
        PlacedIsSound(config, p, s);
        (Settled(config, fee, Placed(p, s)), Admitted(s.tx.hash))
  }

  predicate Admissible(config: Config, p: State, s: Submission) {
    s.tx.hash !in p.byHash && (Replaced(p, s).Some? || |QueueOf(p, s.tx.sender)| < config.maxPerSender)
  }

  lemma ClearedIsSound(config: Config, p: State, s: Submission)
    requires Sound(config, p)
    ensures Sound(config, Cleared(p, s))
    ensures Cleared(p, s).byHash == if Replaced(p, s).Some? then p.byHash - {Replaced(p, s).value} else p.byHash
    ensures |Cleared(p, s).byHash| == if Replaced(p, s).Some? then |p.byHash| - 1 else |p.byHash|
  {
    var p1 := p.(sequence := p.sequence + 1);
    SequenceKeepsSound(config, p, p1);
    if Replaced(p, s).Some? {
      ReplacedIsHeld(p, s);
      RemovedKeepsSound(config, p1, Replaced(p, s).value);
      RemovedIsSmaller(p1, Replaced(p, s).value);
    }
  }

  lemma ClearedHasRoom(config: Config, p: State, s: Submission)
    requires Sound(config, p) && Admissible(config, p, s)
    ensures s.nonce !in QueueOf(Cleared(p, s), s.tx.sender)
    ensures |QueueOf(Cleared(p, s), s.tx.sender)| < config.maxPerSender
  {
    if Replaced(p, s).Some? {
      var h := Replaced(p, s).value;
      ReplacedIsHeld(p, s);
      RemovedQueue(p.(sequence := p.sequence + 1), h, s.tx.sender);
      QueueShrinks(config, p, h);
    }
  }

  lemma PlacedIsSound(config: Config, p: State, s: Submission)
    requires Sound(config, p) && Admissible(config, p, s)
    ensures var q := Placed(p, s);
      && Indexed(q) && Numbered(q) && QueuesBounded(config, q)
      && |q.byHash| == if Replaced(p, s).Some? then |p.byHash| else |p.byHash| + 1
  {
    ClearedIsSound(config, p, s);
    ClearedHasRoom(config, p, s);
    InsertedIsSound(config, Cleared(p, s), PooledTx(s, p.sequence + 1), Placed(p, s));
  }

  lemma InsertedIsSound(config: Config, base: State, t: PooledTx, q: State)
    requires Sound(config, base) && q == Inserted(base, t)
    requires t.submitted.tx.hash !in base.byHash && t.sequence <= base.sequence
    requires forall h :: h in base.byHash ==> base.byHash[h].sequence < t.sequence
    requires t.submitted.nonce !in QueueOf(base, t.submitted.tx.sender)
    requires |QueueOf(base, t.submitted.tx.sender)| < config.maxPerSender
    ensures Indexed(q) && Numbered(q) && QueuesBounded(config, q) && |q.byHash| == |base.byHash| + 1
  {
    InsertedKeepsIndexed(base, t);
    InsertedKeepsNumbered(base, t);
    InsertedKeepsQueuesBounded(config, base, t);
  }

  lemma SequenceKeepsSound(config: Config, p: State, q: State)
    requires Sound(config, p) && q == p.(sequence := p.sequence + 1)
    ensures Sound(config, q)
  {
    forall h | h in q.byHash ensures Queued(q, h) { assert Queued(p, h); }
    forall s, n | n in QueueOf(q, s) ensures Held(q, s, n) { assert Held(p, s, n); }
  }

  lemma QueueShrinks(config: Config, p: State, hash: nat)
    requires Indexed(p) && QueuesBounded(config, p) && hash in p.byHash
    ensures |QueueOf(p, SenderOf(p, hash)) - {NonceOf(p, hash)}| < config.maxPerSender
  {
    assert Queued(p, hash);
    var queue := QueueOf(p, SenderOf(p, hash));
    assert (queue - {NonceOf(p, hash)}).Keys == queue.Keys - {NonceOf(p, hash)};
  }

  // Both limits and the mirror of the indexes survive every submission.
  lemma AdmitKeepsSound(config: Config, p: State, s: Submission, fee: nat, account: nat, balance: nat)
    requires Sound(config, p)
    ensures Sound(config, Admit(config, p, s, fee, account, balance).0)
  {
    if Fault(config, p, s, account, balance).None? {
      if Refusal(config, p, s, fee).None? {
        PlacedIsSound(config, p, s);
        var q := Placed(p, s);
        if |q.byHash| > config.maxTransactions {
          EvictedKeepsSound(config, fee, q);
        }
      } else {
        SequenceKeepsSound(config, p, p.(sequence := p.sequence + 1));
      }
    }
  }

  // Some held transaction pays less than the submission.
  ghost predicate Outbids(fee: nat, p: State, s: Submission) {
    exists h :: h in p.byHash && EffectiveTip(fee, p.byHash[h].submitted) < EffectiveTip(fee, s)
  }

  // Eviction takes out one transaction, cheaper than every one it leaves.
  lemma EvictionSpares(fee: nat, p: State, hash: nat)
    requires Numbered(p) && hash in p.byHash
    ensures hash in Evicted(fee, p).byHash
            <==> exists h :: h in p.byHash && h != hash && Cheaper(fee, p.byHash[h], p.byHash[hash])
    ensures Evicted(fee, p).byHash == p.byHash - {Worst(fee, p)}
  {
    var w := Worst(fee, p);
    if hash != w {
      assert Cheaper(fee, p.byHash[w], p.byHash[hash]);
    } else {
      forall h | h in p.byHash && h != hash ensures !Cheaper(fee, p.byHash[h], p.byHash[hash]) {
        assert Cheaper(fee, p.byHash[hash], p.byHash[h]);
      }
    }
  }

  // The newest transaction survives eviction exactly when it outbids another.
  lemma NewestSurvives(config: Config, fee: nat, p: State, s: Submission)
    requires Sound(config, p) && s.tx.hash !in p.byHash && Replaced(p, s).None? && Numbered(Placed(p, s))
    ensures s.tx.hash in Evicted(fee, Placed(p, s)).byHash <==> Outbids(fee, p, s)
  {
    var q := Placed(p, s);
    EvictionSpares(fee, q, s.tx.hash);
    forall h | h in p.byHash
      ensures h in q.byHash && Cheaper(fee, q.byHash[h], q.byHash[s.tx.hash])
              <==> EffectiveTip(fee, p.byHash[h].submitted) < EffectiveTip(fee, s)
    {
      assert q.byHash[h] == p.byHash[h] && p.byHash[h].sequence <= p.sequence;
    }
  }

  // A submission may be accepted and yet not held: it is held exactly when it
  // replaces, or there is room, or it outbids some held transaction.
  lemma AcceptedIsHeld(config: Config, p: State, s: Submission, fee: nat, account: nat, balance: nat)
    requires Sound(config, p) && Admit(config, p, s, fee, account, balance).1.Admitted?
    ensures var q := Admit(config, p, s, fee, account, balance).0;
      s.tx.hash in q.byHash <==> Replaced(p, s).Some? || |p.byHash| < config.maxTransactions || Outbids(fee, p, s)
  {
    PlacedIsSound(config, p, s);
    ClearedIsSound(config, p, s);
    if Replaced(p, s).None? && |p.byHash| == config.maxTransactions {
      NewestSurvives(config, fee, p, s);
    }
  }

  // Beside the newcomer, nothing changes but the transaction it replaces or the
  // one evicted, and that one is cheaper than all that remain.
  lemma AcceptanceCosts(config: Config, p: State, s: Submission, fee: nat, account: nat, balance: nat, h: nat)
    requires Sound(config, p) && Admit(config, p, s, fee, account, balance).1.Admitted? && h != s.tx.hash
    ensures var q := Admit(config, p, s, fee, account, balance).0;
      && (h in q.byHash ==> h in p.byHash && q.byHash[h] == p.byHash[h])
      && (h in p.byHash && h !in q.byHash ==> Outbid(fee, p, s, h) || Crowded(config, fee, p, s, h, q))
  {
    PlacedIsSound(config, p, s);
    ClearedIsSound(config, p, s);
    if Replaced(p, s).Some? {
      ReplacementCosts(config, p, s, fee, h);
    } else {
      CrowdingCosts(config, p, s, fee, h);
    }
  }

  lemma ReplacementCosts(config: Config, p: State, s: Submission, fee: nat, h: nat)
    requires Sound(config, p) && Replaced(p, s).Some? && Refusal(config, p, s, fee).None? && h != s.tx.hash
    ensures h in Placed(p, s).byHash ==> h in p.byHash && Placed(p, s).byHash[h] == p.byHash[h]
    ensures h in p.byHash && h !in Placed(p, s).byHash ==> Outbid(fee, p, s, h)
  {
    ReplacedIsHeld(p, s);
    ClearedIsSound(config, p, s);
  }

  lemma CrowdingCosts(config: Config, p: State, s: Submission, fee: nat, h: nat)
    requires Sound(config, p) && Replaced(p, s).None? && s.tx.hash !in p.byHash && h != s.tx.hash
    requires Numbered(Placed(p, s)) && |Placed(p, s).byHash| == |p.byHash| + 1
    ensures var q := Settled(config, fee, Placed(p, s));
      && (h in q.byHash ==> h in p.byHash && q.byHash[h] == p.byHash[h])
      && (h in p.byHash && h !in q.byHash ==> Crowded(config, fee, p, s, h, q))
  {
    if |p.byHash| == config.maxTransactions {
      EvictedIsCheapest(fee, Placed(p, s), h);
    }
  }

  lemma EvictedIsCheapest(fee: nat, p: State, h: nat)
    requires Numbered(p) && p.byHash != map[]
    ensures h in Evicted(fee, p).byHash ==> h in p.byHash && Evicted(fee, p).byHash[h] == p.byHash[h]
    ensures h in p.byHash && h !in Evicted(fee, p).byHash ==>
              forall x :: x in Evicted(fee, p).byHash ==> Cheaper(fee, p.byHash[h], Evicted(fee, p).byHash[x])
  {
    var w := Worst(fee, p);
    assert Evicted(fee, p).byHash == p.byHash - {w};
  }

  // `h` is the transaction replaced, and pays less.
  predicate Outbid(fee: nat, p: State, s: Submission, h: nat) {
    Replaced(p, s) == Some(h) && h in p.byHash && EffectiveTip(fee, p.byHash[h].submitted) < EffectiveTip(fee, s)
  }

  // The pool was full, and `h` is cheaper than everything left in `q`.
  ghost predicate Crowded(config: Config, fee: nat, p: State, s: Submission, h: nat, q: State) {
    && Replaced(p, s).None? && |p.byHash| == config.maxTransactions && h in p.byHash
    && forall x :: x in q.byHash ==> Cheaper(fee, p.byHash[h], q.byHash[x])
  }

  // A refused submission leaves both indexes as they were.
  lemma RefusalChangesNothing(config: Config, p: State, s: Submission, fee: nat, account: nat, balance: nat)
    requires Sound(config, p) && Admit(config, p, s, fee, account, balance).1.Refused?
    ensures var r := Admit(config, p, s, fee, account, balance);
      && r.0.byHash == p.byHash && r.0.bySender == p.bySender
      && (r.1.error.ReplacementUnderpriced? <==> r.0.sequence != p.sequence)
      && (r.1.error.ReplacementUnderpriced? ==>
            exists h :: h in p.byHash && SenderOf(p, h) == s.tx.sender && NonceOf(p, h) == s.nonce
                        && EffectiveTip(fee, s) <= EffectiveTip(fee, p.byHash[h].submitted))
  {
    ReplacedIsHeld(p, s);
  }

  /* ---------- runs ---------- */

  // Pruning and block execution both remove a list of transactions.
  datatype Op = Submit(submission: Submission, fee: nat, account: nat, balance: nat) | Drop(hashes: seq<nat>)

  // The pool after a run of submissions and removals.
  ghost function Run(config: Config, p: State, ops: seq<Op>): (q: State)
    requires Sound(config, p)
    ensures Sound(config, q)
    decreases |ops|
  {
    if ops == [] then p
    else match ops[0]
      case Submit(s, fee, account, balance) =>
        AdmitKeepsSound(config, p, s, fee, account, balance);
        Run(config, Admit(config, p, s, fee, account, balance).0, ops[1..])
      case Drop(hashes) =>
        RemovedAllKeepsSound(config, p, hashes);
        Run(config, RemovedAll(p, hashes), ops[1..])
  }

  // After any run the indexes are inverse and within both limits: a transaction
  // is held exactly when its sender's queue names it at its nonce.
  lemma IndexesAreInverse(config: Config, ops: seq<Op>, hash: nat, sender: Address, nonce: nat)
    ensures Sound(config, EMPTY)
    ensures var p := Run(config, EMPTY, ops);
      && (hash in p.byHash && SenderOf(p, hash) == sender && NonceOf(p, hash) == nonce
          <==> nonce in QueueOf(p, sender) && QueueOf(p, sender)[nonce] == hash)
      && |p.byHash| <= config.maxTransactions && |QueueOf(p, sender)| <= config.maxPerSender
  {
    var p := Run(config, EMPTY, ops);
    if hash in p.byHash { assert Queued(p, hash); }
    if nonce in QueueOf(p, sender) { assert Held(p, sender, nonce); }
  }
}
