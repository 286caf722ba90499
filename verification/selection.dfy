// What the pool offers a miner: a greedy merge of the senders' queues.
module Selection {
  import opened Blocks
  import opened Seqs
  import opened Pool
  import opened SortedKeys

  // A sender's transactions in nonce order.
  ghost function Line(p: State, sender: Address): (q: seq<nat>)
    ensures |q| == |QueueOf(p, sender)|
  {
    var nonces := Ascending(QueueOf(p, sender).Keys);
    AscendingLists(QueueOf(p, sender).Keys);
    assert |QueueOf(p, sender).Keys| == |QueueOf(p, sender)|;
    seq(|nonces|, i requires 0 <= i < |nonces| => assert nonces[i] in nonces; QueueOf(p, sender)[nonces[i]])
  }

  ghost predicate InLine(p: State, sender: Address, hash: nat) {
    hash in p.byHash && SenderOf(p, hash) == sender
  }

  // A sender's line holds exactly its transactions, in strictly rising nonces.
  lemma LineListsSender(p: State, sender: Address)
    requires Indexed(p)
    ensures forall h :: h in Line(p, sender) <==> InLine(p, sender, h)
    ensures forall i, j :: 0 <= i < j < |Line(p, sender)| ==>
              InLine(p, sender, Line(p, sender)[i]) && InLine(p, sender, Line(p, sender)[j])
              && NonceOf(p, Line(p, sender)[i]) < NonceOf(p, Line(p, sender)[j])
    ensures Distinct(Line(p, sender))
  {
    var queue := QueueOf(p, sender);
    var nonces, line := Ascending(queue.Keys), Line(p, sender);
    AscendingLists(queue.Keys);
    forall i | 0 <= i < |line| ensures InLine(p, sender, line[i]) && NonceOf(p, line[i]) == nonces[i] {
      assert nonces[i] in nonces;
      assert Held(p, sender, nonces[i]);
    }
    forall h ensures h in line <==> InLine(p, sender, h) {
      if InLine(p, sender, h) {
        assert Queued(p, h);
        var i := IndexOf(nonces, NonceOf(p, h));
        assert line[i] == h;
      }
    }
  }

  type Taken = map<Address, nat>

  function Count(taken: Taken, sender: Address): nat {
    if sender in taken then taken[sender] else 0
  }

  function Advance(taken: Taken, sender: Address): Taken {
    taken[sender := Count(taken, sender) + 1]
  }

  // The next transaction of a sender's line.
  ghost function Head(p: State, taken: Taken, sender: Address): Option<nat> {
    if Count(taken, sender) < |Line(p, sender)| then Some(Line(p, sender)[Count(taken, sender)]) else None
  }

  // `a` is worth more than `b`: a higher tip, the earlier of equals.
  predicate Better(fee: nat, a: PooledTx, b: PooledTx) {
    || EffectiveTip(fee, a.submitted) > EffectiveTip(fee, b.submitted)
    || (EffectiveTip(fee, a.submitted) == EffectiveTip(fee, b.submitted) && a.sequence < b.sequence)
  }

  predicate Beats(fee: nat, p: State, a: nat, best: Option<nat>) {
    best.None? || (a in p.byHash && best.value in p.byHash && Better(fee, p.byHash[a], p.byHash[best.value]))
  }

  // One pass over the senders' heads.
  ghost function Pick(fee: nat, p: State, taken: Taken, senders: seq<Address>, best: Option<nat>): Option<nat>
    decreases |senders|
  {
    if senders == [] then best else
      var head := Head(p, taken, senders[0]);
      Pick(fee, p, taken, senders[1..], if head.Some? && Beats(fee, p, head.value, best) then head else best)
  }

  ghost function BestFrom(fee: nat, p: State, senders: seq<Address>, taken: Taken, out: seq<nat>, limit: nat): seq<nat>
    decreases limit - |out|
  {
    if |out| >= limit then out else
      match Pick(fee, p, taken, senders, None)
      case None => out
      case Some(h) =>
        if h !in p.byHash then out
        else BestFrom(fee, p, senders, Advance(taken, SenderOf(p, h)), out + [h], limit)
  }

  // `best_transactions`
  ghost function Best(fee: nat, p: State, limit: nat): seq<nat> {
    BestFrom(fee, p, Ascending(p.bySender.Keys), map[], [], limit)
  }

  /* ---------- one pass ---------- */

  // The pick is a head, or what it started with, and no head beats it.
  lemma {:induction false} PickIsGreatest(fee: nat, p: State, taken: Taken, senders: seq<Address>, best: Option<nat>)
    requires Indexed(p) && (best.Some? ==> best.value in p.byHash)
    ensures var r := Pick(fee, p, taken, senders, best);
      && (r == best || exists s :: s in senders && Head(p, taken, s) == r)
      && (r.Some? ==> r.value in p.byHash)
      && (best.Some? ==> r.Some? && !Beats(fee, p, best.value, r))
      && (forall s :: s in senders && Head(p, taken, s).Some? ==> r.Some? && !Beats(fee, p, Head(p, taken, s).value, r))
    decreases |senders|
  {
    if senders != [] {
      var head := Head(p, taken, senders[0]);
      HeadIsHeld(p, taken, senders[0]);
      var next := if head.Some? && Beats(fee, p, head.value, best) then head else best;
      PickIsGreatest(fee, p, taken, senders[1..], next);
      var r := Pick(fee, p, taken, senders[1..], next);
      assert forall s :: s in senders <==> s == senders[0] || s in senders[1..];
    }
  }

  lemma HeadIsHeld(p: State, taken: Taken, sender: Address)
    requires Indexed(p)
    ensures Head(p, taken, sender).Some? ==> InLine(p, sender, Head(p, taken, sender).value)
  {
    LineListsSender(p, sender);
    if Head(p, taken, sender).Some? {
      assert Head(p, taken, sender).value in Line(p, sender);
    }
  }

  /* ---------- what is taken so far ---------- */

  // The part of a selection that comes from one sender.
  ghost function Of(p: State, out: seq<nat>, sender: Address): seq<nat>
    decreases |out|
  {
    if out == [] then []
    else
      var last := out[|out| - 1];
      Of(p, out[..|out| - 1], sender) + (if InLine(p, sender, last) then [last] else [])
  }

  lemma OfNext(p: State, out: seq<nat>, h: nat, sender: Address)
    ensures Of(p, out + [h], sender) == Of(p, out, sender) + (if InLine(p, sender, h) then [h] else [])
  {
    assert (out + [h])[..|out|] == out;
  }

  lemma {:induction false} OfMembers(p: State, out: seq<nat>, sender: Address)
    ensures forall h :: h in Of(p, out, sender) <==> h in out && InLine(p, sender, h)
    decreases |out|
  {
    if out != [] {
      OfMembers(p, out[..|out| - 1], sender);
      assert out == out[..|out| - 1] + [out[|out| - 1]];
    }
  }

  // Every sender has given a prefix of its line, as many as counted.
  ghost predicate Prefixes(p: State, taken: Taken, out: seq<nat>) {
    forall s {:trigger Line(p, s)} :: Count(taken, s) <= |Line(p, s)| && Of(p, out, s) == Line(p, s)[..Count(taken, s)]
  }

  // What a selection promises, at every point of it.
  ghost predicate Merged(fee: nat, p: State, taken: Taken, out: seq<nat>) {
    && Prefixes(p, taken, out)
    && Distinct(out) && (forall h :: h in out ==> h in p.byHash)
    && forall i :: 0 <= i < |out| ==> GreedyAt(fee, p, out, i)
  }

  // The `i`th choice is beaten by no head of the lines as they then stood.
  ghost predicate GreedyAt(fee: nat, p: State, out: seq<nat>, i: nat)
    requires i < |out|
  {
    forall s {:trigger Line(p, s)} :: |Of(p, out[..i], s)| < |Line(p, s)| ==> !Beats(fee, p, Line(p, s)[|Of(p, out[..i], s)|], Some(out[i]))
  }

  lemma PrefixesNext(p: State, taken: Taken, out: seq<nat>, h: nat)
    requires Indexed(p) && Prefixes(p, taken, out) && h in p.byHash
    requires Head(p, taken, SenderOf(p, h)) == Some(h)
    ensures Prefixes(p, Advance(taken, SenderOf(p, h)), out + [h])
  {
    var s0 := SenderOf(p, h);
    var taken' := Advance(taken, s0);
    forall s ensures Count(taken', s) <= |Line(p, s)| && Of(p, out + [h], s) == Line(p, s)[..Count(taken', s)] {
      OfNext(p, out, h, s);
      if s == s0 {
        var line := Line(p, s);
        assert line[..Count(taken, s) + 1] == line[..Count(taken, s)] + [line[Count(taken, s)]];
      }
    }
  }

  lemma NewlyTaken(p: State, taken: Taken, out: seq<nat>, h: nat)
    requires Indexed(p) && Prefixes(p, taken, out) && h in p.byHash
    requires Head(p, taken, SenderOf(p, h)) == Some(h)
    ensures h !in out
  {
    var s := SenderOf(p, h);
    LineListsSender(p, s);
    OfMembers(p, out, s);
    var line, n := Line(p, s), Count(taken, s);
    assert Of(p, out, s) == line[..n];
    assert forall i :: 0 <= i < n ==> line[..n][i] != line[n];
  }

  lemma GreedyNext(fee: nat, p: State, taken: Taken, out: seq<nat>, h: nat)
    requires Prefixes(p, taken, out)
    requires forall i :: 0 <= i < |out| ==> GreedyAt(fee, p, out, i)
    requires forall s :: Head(p, taken, s).Some? ==> !Beats(fee, p, Head(p, taken, s).value, Some(h))
    ensures forall i :: 0 <= i < |out + [h]| ==> GreedyAt(fee, p, out + [h], i)
  {
    forall i | 0 <= i < |out + [h]| ensures GreedyAt(fee, p, out + [h], i) {
      if i < |out| {
        assert GreedyAt(fee, p, out, i);
        assert (out + [h])[..i] == out[..i];
      } else {
        assert (out + [h])[..i] == out;
        forall s | |Of(p, out, s)| < |Line(p, s)| ensures !Beats(fee, p, Line(p, s)[|Of(p, out, s)|], Some(h)) {
          assert Head(p, taken, s) == Some(Line(p, s)[|Of(p, out, s)|]);
        }
      }
    }
  }

  // A head belongs to a sender that has a queue.
  lemma HeadsAreListed(p: State, taken: Taken, sender: Address)
    ensures Head(p, taken, sender).Some? ==> sender in Ascending(p.bySender.Keys)
  {
    AscendingLists(p.bySender.Keys);
  }

  lemma PickedNext(fee: nat, p: State, taken: Taken, out: seq<nat>, h: nat)
    requires Indexed(p) && Merged(fee, p, taken, out)
    requires Pick(fee, p, taken, Ascending(p.bySender.Keys), None) == Some(h)
    ensures h in p.byHash
    ensures Merged(fee, p, Advance(taken, SenderOf(p, h)), out + [h])
  {
    var senders := Ascending(p.bySender.Keys);
    PickIsGreatest(fee, p, taken, senders, None);
    var s :| s in senders && Head(p, taken, s) == Some(h);
    HeadIsHeld(p, taken, s);
    PrefixesNext(p, taken, out, h);
    NewlyTaken(p, taken, out, h);
    DistinctConcat(out, [h]);
    forall s | Head(p, taken, s).Some? ensures !Beats(fee, p, Head(p, taken, s).value, Some(h)) {
      HeadsAreListed(p, taken, s);
    }
    GreedyNext(fee, p, taken, out, h);
  }

  lemma BestFromTakes(fee: nat, p: State, senders: seq<Address>, taken: Taken, out: seq<nat>, limit: nat, h: nat)
    requires |out| < limit && Pick(fee, p, taken, senders, None) == Some(h) && h in p.byHash
    ensures BestFrom(fee, p, senders, taken, out, limit)
            == BestFrom(fee, p, senders, Advance(taken, SenderOf(p, h)), out + [h], limit)
  {
  }

  lemma TakeNext(fee: nat, p: State, taken: Taken, out: seq<nat>, limit: nat, h: nat) returns (taken': Taken,
      out': seq<nat>)
    requires Indexed(p) && Merged(fee, p, taken, out) && |out| < limit
    requires Pick(fee, p, taken, Ascending(p.bySender.Keys), None) == Some(h)
    ensures Merged(fee, p, taken', out') && |out'| == |out| + 1
    ensures BestFrom(fee, p, Ascending(p.bySender.Keys), taken, out, limit)
            == BestFrom(fee, p, Ascending(p.bySender.Keys), taken', out', limit)
  {
    PickedNext(fee, p, taken, out, h);
    BestFromTakes(fee, p, Ascending(p.bySender.Keys), taken, out, limit, h);
    taken', out' := Advance(taken, SenderOf(p, h)), out + [h];
  }

  lemma {:induction false} BestFromMerges(fee: nat, p: State, taken: Taken, out: seq<nat>, limit: nat,
      q: seq<nat>) returns (all: Taken)
    requires Indexed(p) && Merged(fee, p, taken, out) && |out| <= limit
    requires q == BestFrom(fee, p, Ascending(p.bySender.Keys), taken, out, limit)
    ensures Merged(fee, p, all, q) && |q| <= limit
    ensures |q| < limit ==> forall s :: Head(p, all, s).None?
    decreases limit - |out|
  {
    var senders := Ascending(p.bySender.Keys);
    all := taken;
    var r := Pick(fee, p, taken, senders, None);
    if |out| < limit && r.Some? {
      var taken', out' := TakeNext(fee, p, taken, out, limit, r.value);
      all := BestFromMerges(fee, p, taken', out', limit, q);
    } else if |out| < limit {
      NoHeadLeft(fee, p, taken);
    }
  }

  lemma NoHeadLeft(fee: nat, p: State, taken: Taken)
    requires Indexed(p) && Pick(fee, p, taken, Ascending(p.bySender.Keys), None) == None
    ensures forall s :: Head(p, taken, s).None?
  {
    PickIsGreatest(fee, p, taken, Ascending(p.bySender.Keys), None);
    forall s ensures Head(p, taken, s).None? {
      HeadsAreListed(p, taken, s);
    }
  }

  // With no head left, everything held has been taken.
  lemma AllTaken(fee: nat, p: State, taken: Taken, out: seq<nat>)
    requires Indexed(p) && Merged(fee, p, taken, out) && forall s :: Head(p, taken, s).None?
    ensures Elems(out) == p.byHash.Keys
  {
    forall h | h in p.byHash ensures h in out {
      var s := SenderOf(p, h);
      LineListsSender(p, s);
      OfMembers(p, out, s);
      assert Head(p, taken, s).None?;
      assert Line(p, s)[..Count(taken, s)] == Line(p, s);
      assert InLine(p, s, h);
    }
  }

  // Every sender's part of a selection is the start of its nonce-ordered line.
  ghost predicate NoncePrefixes(p: State, out: seq<nat>) {
    forall s {:trigger Line(p, s)} :: Of(p, out, s) <= Line(p, s)
  }

  // `best_transactions` offers as many as it may, each once, each sender's in
  // nonce order without gaps in its queue, every choice the best then open.
  lemma BestIsGreedyMerge(fee: nat, p: State, limit: nat)
    requires Indexed(p)
    ensures var out := Best(fee, p, limit);
      && |out| == (if limit < |p.byHash| then limit else |p.byHash|)
      && Distinct(out) && (forall h :: h in out ==> h in p.byHash)
      && NoncePrefixes(p, out)
      && forall i :: 0 <= i < |out| ==> GreedyAt(fee, p, out, i)
  {
    assert Merged(fee, p, map[], []);
    var out := Best(fee, p, limit);
    var taken := BestFromMerges(fee, p, map[], [], limit, out);
    DistinctCount(out);
    SubsetCount(Elems(out), p.byHash.Keys);
    assert |p.byHash.Keys| == |p.byHash|;
    if |out| < limit {
      AllTaken(fee, p, taken, out);
    }
    forall s ensures Of(p, out, s) <= Line(p, s) {
      assert Of(p, out, s) == Line(p, s)[..Count(taken, s)];
    }
  }

  lemma {:induction false} BestFromExtends(fee: nat, p: State, senders: seq<Address>, taken: Taken, out: seq<nat>,
      limit: nat)
    ensures out <= BestFrom(fee, p, senders, taken, out, limit)
    decreases limit - |out|
  {
    var r := Pick(fee, p, taken, senders, None);
    if |out| < limit && r.Some? && r.value in p.byHash {
      var s := SenderOf(p, r.value);
      BestFromExtends(fee, p, senders, Advance(taken, s), out + [r.value], limit);
    }
  }

  lemma {:induction false} BestFromPrefix(fee: nat, p: State, senders: seq<Address>, taken: Taken, out: seq<nat>,
      fewer: nat, more: nat)
    requires fewer <= more
    ensures BestFrom(fee, p, senders, taken, out, fewer) <= BestFrom(fee, p, senders, taken, out, more)
    decreases fewer - |out|
  {
    var r := Pick(fee, p, taken, senders, None);
    if |out| >= fewer {
      BestFromExtends(fee, p, senders, taken, out, more);
    } else if r.Some? && r.value in p.byHash {
      var s := SenderOf(p, r.value);
      BestFromPrefix(fee, p, senders, Advance(taken, s), out + [r.value], fewer, more);
    }
  }

  // Asking for fewer gives the start of what asking for more gives.
  lemma FewerIsPrefix(fee: nat, p: State, fewer: nat, more: nat)
    requires fewer <= more
    ensures Best(fee, p, fewer) <= Best(fee, p, more)
  {
    BestFromPrefix(fee, p, Ascending(p.bySender.Keys), map[], [], fewer, more);
  }
}
