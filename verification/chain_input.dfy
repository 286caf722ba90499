// What a chain block executes: the transactions of its base sequence, tagged
// with the miner that carried them, each once.
module ChainInput {
  import opened Blocks
  import opened Ghostdag
  import opened OrderIndependence
  import opened BlueSets
  import opened Linearisation
  import opened Execution

  type Bodies = map<Id, seq<Tx>>

  // An absent body contributes nothing.
  function Body(bodies: Bodies, b: Id): seq<Tx> {
    if b in bodies then bodies[b] else []
  }

  function TagBlock(miner: Address, txs: seq<Tx>): Tagged {
    if txs == [] then [] else [(miner, txs[0])] + TagBlock(miner, txs[1..])
  }

  function TagAll(g: Dag, bodies: Bodies, sources: seq<Id>): Tagged {
    if sources == [] then [] else
      var miner := if sources[0] in g.headers then g.headers[sources[0]].miner else 0;
      TagBlock(miner, Body(bodies, sources[0])) + TagAll(g, bodies, sources[1..])
  }

  // First occurrences by transaction hash.
  function Deduplicated(tagged: Tagged, seen: set<nat>): Tagged {
    if tagged == [] then []
    else if tagged[0].1.hash in seen then Deduplicated(tagged[1..], seen)
    else [tagged[0]] + Deduplicated(tagged[1..], seen + {tagged[0].1.hash})
  }

  // The transactions of a chain block, in base sequence.
  function InputOf(g: Dag, bodies: Bodies, b: Id): Tagged {
    Deduplicated(TagAll(g, bodies, BaseSequence(g, b)), {})
  }

  ghost predicate HasHash(tagged: Tagged, hash: nat) {
    exists i :: 0 <= i < |tagged| && tagged[i].1.hash == hash
  }

  lemma HasHashCons(tagged: Tagged, hash: nat)
    requires tagged != []
    ensures HasHash(tagged, hash) <==> tagged[0].1.hash == hash || HasHash(tagged[1..], hash)
  {
    if HasHash(tagged[1..], hash) {
      var i :| 0 <= i < |tagged[1..]| && tagged[1..][i].1.hash == hash;
      assert tagged[i + 1].1.hash == hash;
    }
    if HasHash(tagged, hash) && tagged[0].1.hash != hash {
      var i :| 0 <= i < |tagged| && tagged[i].1.hash == hash;
      assert tagged[1..][i - 1].1.hash == hash;
    }
  }

  // Every hash survives exactly once.
  lemma {:induction false} DeduplicatedOnce(tagged: Tagged, seen: set<nat>)
    ensures var kept := Deduplicated(tagged, seen);
      && (forall hash :: HasHash(kept, hash) <==> HasHash(tagged, hash) && hash !in seen)
      && forall i, j :: 0 <= i < j < |kept| ==> kept[i].1.hash != kept[j].1.hash
    decreases |tagged|
  {
    if tagged != [] {
      var first, rest := tagged[0], tagged[1..];
      var kept := Deduplicated(tagged, seen);
      forall hash ensures HasHash(tagged, hash) <==> first.1.hash == hash || HasHash(rest, hash) {
        HasHashCons(tagged, hash);
      }
      if first.1.hash in seen {
        DeduplicatedOnce(rest, seen);
      } else {
        DeduplicatedOnce(rest, seen + {first.1.hash});
        var tail := Deduplicated(rest, seen + {first.1.hash});
        assert kept[1..] == tail;
        forall hash ensures HasHash(kept, hash) <==> first.1.hash == hash || HasHash(tail, hash) {
          HasHashCons(kept, hash);
        }
        forall j | 0 < j < |kept| ensures kept[j].1.hash != first.1.hash {
          assert tail[j - 1].1.hash == kept[j].1.hash;
          assert HasHash(tail, kept[j].1.hash);
        }
      }
    }
  }

  // The kept entry is the first to carry its hash, so its tag decides the miner.
  lemma {:induction false} FirstOccurrenceWins(tagged: Tagged, seen: set<nat>, i: nat)
    requires i < |tagged| && tagged[i].1.hash !in seen
    requires forall j :: 0 <= j < i ==> tagged[j].1.hash != tagged[i].1.hash
    ensures tagged[i] in Deduplicated(tagged, seen)
    decreases |tagged|
  {
    if i > 0 {
      assert tagged[1..][i - 1] == tagged[i];
      assert forall j :: 0 <= j < i - 1 ==> tagged[1..][j] == tagged[j + 1];
      FirstOccurrenceWins(tagged[1..], if tagged[0].1.hash in seen then seen else seen + {tagged[0].1.hash}, i - 1);
    }
  }

  // The bodies of the sources laid end to end, each transaction with its miner.
  method TagSources(g: Dag, bodies: Bodies, sources: seq<Id>) returns (all: Tagged)
    ensures all == TagAll(g, bodies, sources)
  {
    all := [];
    for i := 0 to |sources|
      invariant TagAll(g, bodies, sources) == all + TagAll(g, bodies, sources[i..])
    {
      assert sources[i..][1..] == sources[i + 1..];
      var miner := if sources[i] in g.headers then g.headers[sources[i]].miner else 0;
      all := all + TagBlock(miner, Body(bodies, sources[i]));
    }
    assert sources[|sources|..] == [];
    assert all + [] == all;
  }

  method CollectInput(g: Dag, bodies: Bodies, b: Id) returns (tagged: Tagged)
    ensures tagged == InputOf(g, bodies, b)
  {
    var all := TagSources(g, bodies, BaseSequence(g, b));
    tagged := RetainFirst(all);
  }

  // `retain` with a set of seen hashes.
  method RetainFirst(all: Tagged) returns (tagged: Tagged)
    ensures tagged == Deduplicated(all, {})
  {
    var seen: set<nat> := {};
    tagged := [];
    ghost var goal := Deduplicated(all, {});
    for i := 0 to |all|
      invariant goal == tagged + Deduplicated(all[i..], seen)
    {
      assert all[i..][1..] == all[i + 1..];
      if all[i].1.hash !in seen {
        tagged := tagged + [all[i]];
        seen := seen + {all[i].1.hash};
      }
    }
    assert all[|all|..] == [];
  }

  // A later node state: more blocks, and every held block's body as it was.
  ghost predicate Extends(g: Dag, bodies: Bodies, g': Dag, bodies': Bodies) {
    && Consistent(g) && Consistent(g')
    && Agree(g, g', g.headers.Keys)
    && forall b :: b in g.headers ==> Body(bodies, b) == Body(bodies', b)
  }

  lemma {:induction false} TagAllLocal(g: Dag, bodies: Bodies, g': Dag, bodies': Bodies, sources: seq<Id>)
    requires Extends(g, bodies, g', bodies') && forall x :: x in sources ==> x in g.headers
    ensures TagAll(g, bodies, sources) == TagAll(g', bodies', sources)
    decreases |sources|
  {
    if sources != [] {
      assert sources[0] in sources;
      TagAllLocal(g, bodies, g', bodies', sources[1..]);
    }
  }

  // A held block's input never changes.
  lemma InputIsStable(g: Dag, bodies: Bodies, g': Dag, bodies': Bodies, b: Id)
    requires Extends(g, bodies, g', bodies') && b in g.headers
    ensures InputOf(g, bodies, b) == InputOf(g', bodies', b)
  {
    forall x | x in BaseSequence(g, b) ensures x in g.headers {
      if x != b {
        assert Derived(g, b);
        MergedIsPastDifference(g, b, x);
        AncestorsAreLower(g, x, b);
      }
    }
    TagAllLocal(g, bodies, g', bodies', BaseSequence(g, b));
  }
}
