// Replay and undo, for any way of executing one block: what the executor's
// journal and results say about the chain it has executed.
module Replays {
  import opened Blocks
  import opened BlueWorks
  import opened Reorg
  import opened Journal
  import opened Executor

  // Executing a block on top of a core: the core after it, its outcome, and the
  // undo record.
  type Stepper = (Core, Id) -> (Core, Outcome, UndoRecord)

  // What executing a known block always does: one height up, its outcome filed,
  // undoable, and heedless of the tip it starts from.
  ghost predicate Lawful(step: Stepper, known: set<Id>) {
    forall core, b {:trigger step(core, b)} :: b in known ==> LawfulAt(step, core, b)
  }

  ghost predicate LawfulAt(step: Stepper, core: Core, b: Id) {
    var (next, outcome, undo) := step(core, b);
    && next.height == core.height + 1 && next.tip == b && outcome.hash == b && outcome.height == core.height + 1
    && next.results == core.results[core.height + 1 := outcome]
    && Restored(next.accounts, undo) == core.accounts
    && forall tip :: step(core.(tip := tip), b) == (next, outcome, undo)
  }

  // Running a chain, oldest first.
  ghost function Replay(step: Stepper, root: Core, chain: seq<Id>): Core
    decreases |chain|
  {
    if chain == [] then root
    else step(Replay(step, root, chain[..|chain| - 1]), chain[|chain| - 1]).0
  }

  ghost predicate IsRoot(root: Core) {
    root.height == 0 && root.results.Keys == {0} && root.results[0].hash == root.tip
  }

  ghost predicate Known(known: set<Id>, chain: seq<Id>) {
    forall x :: x in chain ==> x in known
  }

  lemma ReplayNext(step: Stepper, root: Core, chain: seq<Id>, b: Id)
    ensures Replay(step, root, chain + [b]) == step(Replay(step, root, chain), b).0
  {
    assert (chain + [b])[..|chain + [b]| - 1] == chain;
  }

  lemma ReplayLast(step: Stepper, known: set<Id>, root: Core, chain: seq<Id>)
    requires Lawful(step, known) && Known(known, chain) && chain != []
    ensures var before := Replay(step, root, chain[..|chain| - 1]);
      LawfulAt(step, before, chain[|chain| - 1]) && Replay(step, root, chain) == step(before, chain[|chain| - 1]).0
  {
    assert chain[|chain| - 1] in chain;
  }

  // A replayed chain's height is its length, its tip its last block, and its
  // results are filed at every height up to it.
  ghost predicate Shaped(root: Core, core: Core, chain: seq<Id>) {
    && 0 in root.results
    && core.height == |chain|
    && core.tip == (if chain == [] then root.tip else chain[|chain| - 1])
    && (forall h :: h in core.results <==> 0 <= h <= |chain|)
    && core.results[0] == root.results[0]
    && forall h :: 1 <= h <= |chain| ==> core.results[h].hash == chain[h - 1] && core.results[h].height == h
  }

  lemma {:induction false} ReplayShape(step: Stepper, known: set<Id>, root: Core, chain: seq<Id>)
    requires Lawful(step, known) && Known(known, chain) && IsRoot(root)
    ensures Shaped(root, Replay(step, root, chain), chain)
    decreases |chain|
  {
    assert 0 in root.results.Keys;
    if chain != [] {
      ReplayShape(step, known, root, chain[..|chain| - 1]);
      ReplayLast(step, known, root, chain);
    }
  }

  // Results filed for a chain stay as they are on every extension of it.
  lemma {:induction false} ReplayKeepsPrefix(step: Stepper, known: set<Id>, root: Core, p: seq<Id>, q: seq<Id>)
    requires Lawful(step, known) && Known(known, p) && Known(known, q) && IsRoot(root)
    ensures forall h :: 0 <= h <= |p| ==>
      h in Replay(step, root, p).results && h in Replay(step, root, p + q).results
      && Replay(step, root, p + q).results[h] == Replay(step, root, p).results[h]
    decreases |q|
  {
    ReplayShape(step, known, root, p);
    if q == [] {
      assert p + q == p;
    } else {
      var n := |q| - 1;
      ReplayKeepsPrefix(step, known, root, p, q[..n]);
      assert p + q == p + q[..n] + [q[n]];
      assert Known(known, p + q[..n]);
      ReplayNext(step, root, p + q[..n], q[n]);
      ReplayShape(step, known, root, p + q[..n]);
      assert LawfulAt(step, Replay(step, root, p + q[..n]), q[n]);
    }
  }

  /* ---------- the executor's invariant ---------- */

  // Journal entry `e` undoes chain block `m`.
  ghost predicate Undoes(step: Stepper, root: Core, chain: seq<Id>, m: nat, e: Entry) {
    && m < |chain| && e.hash == chain[m] && e.height == m + 1
    && Restored(Replay(step, root, chain[..m + 1]).accounts, e.undo) == Replay(step, root, chain[..m]).accounts
  }

  ghost predicate Journalled(step: Stepper, root: Core, chain: seq<Id>, journal: seq<Entry>) {
    && |journal| <= |chain|
    && forall j {:trigger journal[j]} :: 0 <= j < |journal| ==> Undoes(step, root, chain, |chain| - |journal| + j, journal[j])
  }

  // The executor has executed `chain`: accounts, results and height are its
  // replay's, the journal undoes its latest blocks, and the tip is its last
  // block unless no record is left.
  ghost predicate Follows(step: Stepper, root: Core, st: ExecState, chain: seq<Id>) {
    && IsRoot(root)
    && Journalled(step, root, chain, st.journal)
    && st.core == Replay(step, root, chain).(tip := if st.journal == [] || chain == [] then root.tip else chain[|chain| - 1])
  }

  // The tip is right exactly while a record is left or nothing is executed.
  lemma TipIsRightWhileRecorded(step: Stepper, known: set<Id>, root: Core, st: ExecState, chain: seq<Id>)
    requires Lawful(step, known) && Known(known, chain)
    requires Follows(step, root, st, chain) && root.tip !in chain
    ensures st.core == Replay(step, root, chain) <==> st.journal != [] || chain == []
  {
    ReplayShape(step, known, root, chain);
  }

  /* ---------- executing one more block ---------- */

  lemma {:induction false} PrunedIsSuffix(journal: seq<Entry>, base: nat, below: nat)
    requires forall j :: 0 <= j < |journal| ==> journal[j].height == base + j
    ensures var k := if below <= base then 0 else if below - base >= |journal| then |journal| else below - base;
      Pruned(journal, below) == journal[k..]
    decreases |journal|
  {
    if journal != [] {
      assert forall j :: 0 <= j < |journal| - 1 ==> journal[1..][j].height == base + 1 + j;
      PrunedIsSuffix(journal[1..], base + 1, below);
      if below <= base {
        assert [journal[0]] + journal[1..] == journal;
      }
    }
  }

  lemma UndoesLonger(step: Stepper, root: Core, chain: seq<Id>, b: Id, m: nat, e: Entry)
    requires m < |chain|
    ensures Undoes(step, root, chain + [b], m, e) <==> Undoes(step, root, chain, m, e)
  {
    assert (chain + [b])[..m + 1] == chain[..m + 1] && (chain + [b])[..m] == chain[..m];
  }

  // The entry filed for a block undoes it.
  lemma FiledUndoes(step: Stepper, known: set<Id>, root: Core, chain: seq<Id>, b: Id)
    requires Lawful(step, known) && Known(known, chain) && b in known && IsRoot(root)
    ensures var s := step(Replay(step, root, chain), b);
      Undoes(step, root, chain + [b], |chain|, Entry(s.0.height, s.0.tip, s.2))
  {
    assert LawfulAt(step, Replay(step, root, chain), b);
    ReplayShape(step, known, root, chain);
    ReplayNext(step, root, chain, b);
    assert (chain + [b])[..|chain| + 1] == chain + [b] && (chain + [b])[..|chain|] == chain;
  }

  // Before pruning, the journal holds one more entry and all it held.
  lemma AppendJournalled(step: Stepper, known: set<Id>, root: Core, chain: seq<Id>, journal: seq<Entry>, b: Id)
    requires Lawful(step, known) && Known(known, chain) && b in known && IsRoot(root)
    requires Journalled(step, root, chain, journal)
    ensures var s := step(Replay(step, root, chain), b);
      Journalled(step, root, chain + [b], journal + [Entry(s.0.height, s.0.tip, s.2)])
  {
    var s := step(Replay(step, root, chain), b);
    FiledUndoes(step, known, root, chain, b);
    OneMoreJournalled(step, root, chain, journal, b, Entry(s.0.height, s.0.tip, s.2));
  }

  lemma OneMoreJournalled(step: Stepper, root: Core, chain: seq<Id>, journal: seq<Entry>, b: Id, e: Entry)
    requires Journalled(step, root, chain, journal) && Undoes(step, root, chain + [b], |chain|, e)
    ensures Journalled(step, root, chain + [b], journal + [e])
  {
    var longer := journal + [e];
    forall j | 0 <= j < |longer| ensures Undoes(step, root, chain + [b], |chain| + 1 - |longer| + j, longer[j]) {
      if j < |journal| {
        UndoesLonger(step, root, chain, b, |chain| - |journal| + j, journal[j]);
      }
    }
  }

  lemma SuffixJournalled(step: Stepper, root: Core, chain: seq<Id>, journal: seq<Entry>, k: nat)
    requires Journalled(step, root, chain, journal) && k <= |journal|
    ensures Journalled(step, root, chain, journal[k..])
  {
    forall j | 0 <= j < |journal[k..]| ensures Undoes(step, root, chain, |chain| - |journal[k..]| + j, journal[k..][j]) {
      assert journal[k..][j] == journal[k + j];
    }
  }

  // How many executed blocks can no longer be undone.
  function Sealed(st: ExecState, chain: seq<Id>): int {
    |chain| - |st.journal|
  }

  // Pruning leaves a non-empty suffix, sealing at most what lies below the window.
  lemma PruneSuffix(step: Stepper, root: Core, chain: seq<Id>, journal: seq<Entry>, window: nat) returns (k: nat)
    requires Journalled(step, root, chain, journal) && journal != []
    ensures k < |journal|
    ensures (if |chain| > window then Pruned(journal, |chain| - window) else journal) == journal[k..]
    ensures k > 0 ==> |chain| - |journal[k..]| == |chain| - window - 1
  {
    k := 0;
    if |chain| > window {
      var base := |chain| - |journal| + 1;
      assert forall j :: 0 <= j < |journal| ==> Undoes(step, root, chain, |chain| - |journal| + j, journal[j]);
      PrunedIsSuffix(journal, base, |chain| - window);
      k := if |chain| - window <= base then 0 else |chain| - window - base;
    }
  }

  // The core after a step, and what is filed, before the journal is looked at.
  lemma StepCore(step: Stepper, known: set<Id>, root: Core, st: ExecState, chain: seq<Id>, b: Id)
    requires Lawful(step, known) && Known(known, chain) && b in known && Follows(step, root, st, chain)
    ensures var s := step(st.core, b);
      && s == step(Replay(step, root, chain), b) && s.0 == Replay(step, root, chain + [b])
      && s.0.height == |chain| + 1 && s.0.tip == b
      && |chain| + 1 in s.0.results && s.1 == s.0.results[|chain| + 1]
  {
    assert LawfulAt(step, Replay(step, root, chain), b);
    ReplayNext(step, root, chain, b);
    ReplayShape(step, known, root, chain);
  }

  lemma StepJournal(step: Stepper, known: set<Id>, window: nat, root: Core, st: ExecState, chain: seq<Id>, b: Id)
    requires Lawful(step, known) && Known(known, chain) && b in known && Follows(step, root, st, chain)
    ensures var next := Filed(window, st, step(st.core, b));
      && Journalled(step, root, chain + [b], next.journal) && next.journal != []
      && (Sealed(next, chain + [b]) <= Sealed(st, chain) || Sealed(next, chain + [b]) == |chain| - window)
  {
    StepCore(step, known, root, st, chain, b);
    AppendJournalled(step, known, root, chain, st.journal, b);
    var s := step(st.core, b);
    var longer := st.journal + [Entry(s.0.height, s.0.tip, s.2)];
    var k := PruneSuffix(step, root, chain + [b], longer, window);
    SuffixJournalled(step, root, chain + [b], longer, k);
    assert Filed(window, st, s).journal == longer[k..];
  }

  // Executing a known block follows the longer chain, leaves a record, and makes
  // the tip right whatever it was.
  lemma StepFollows(step: Stepper, known: set<Id>, window: nat, root: Core, st: ExecState, chain: seq<Id>, b: Id)
    requires Lawful(step, known) && Known(known, chain) && b in known && Follows(step, root, st, chain)
    ensures var next := Filed(window, st, step(st.core, b));
      && Follows(step, root, next, chain + [b]) && next.journal != []
      && next.core == Replay(step, root, chain + [b])
  {
    StepCore(step, known, root, st, chain, b);
    StepJournal(step, known, window, root, st, chain, b);
  }

  /* ---------- undoing ---------- */

  lemma UndoesShorter(step: Stepper, root: Core, chain: seq<Id>, n: nat, m: nat, e: Entry)
    requires m < n <= |chain|
    ensures Undoes(step, root, chain[..n], m, e) <==> Undoes(step, root, chain, m, e)
  {
    assert chain[..n][..m + 1] == chain[..m + 1] && chain[..n][..m] == chain[..m];
  }

  lemma InitJournalled(step: Stepper, root: Core, chain: seq<Id>, journal: seq<Entry>)
    requires Journalled(step, root, chain, journal) && journal != []
    ensures chain != [] && Journalled(step, root, chain[..|chain| - 1], journal[..|journal| - 1])
  {
    var n := |chain| - 1;
    var init := journal[..|journal| - 1];
    forall j | 0 <= j < |init| ensures Undoes(step, root, chain[..n], n - |init| + j, init[j]) {
      assert init[j] == journal[j];
      UndoesShorter(step, root, chain, n, n - |init| + j, init[j]);
    }
  }

  // Undoing the last block of the chain, when it is still recorded.
  lemma UndoFollows(step: Stepper, known: set<Id>, root: Core, st: ExecState, chain: seq<Id>)
    requires Lawful(step, known) && Known(known, chain)
    requires Follows(step, root, st, chain) && st.journal != []
    ensures chain != []
    ensures var r := UndoOne(st, chain[|chain| - 1]);
      && r.Success? && r.value.journal == st.journal[..|st.journal| - 1]
      && Follows(step, root, r.value, chain[..|chain| - 1])
  {
    InitJournalled(step, root, chain, st.journal);
    var n := |chain| - 1;
    var last := st.journal[|st.journal| - 1];
    assert Undoes(step, root, chain, n, last);
    assert chain[..n + 1] == chain;
    ReplayLast(step, known, root, chain);
    ReplayShape(step, known, root, chain[..n]);
    var init := st.journal[..|st.journal| - 1];
    if init != [] {
      assert init[|init| - 1] == st.journal[|st.journal| - 2];
      assert Undoes(step, root, chain, n - 1, st.journal[|st.journal| - 2]);
    }
    DropLast(step, known, root, chain);
  }

  // Dropping the last height's result undoes what executing it added.
  lemma DropLast(step: Stepper, known: set<Id>, root: Core, chain: seq<Id>)
    requires Lawful(step, known) && Known(known, chain) && chain != [] && IsRoot(root)
    ensures Replay(step, root, chain).results - {|chain|} == Replay(step, root, chain[..|chain| - 1]).results
    ensures 0 in Replay(step, root, chain).results && Replay(step, root, chain).results[0].hash == root.tip
  {
    ReplayLast(step, known, root, chain);
    ReplayShape(step, known, root, chain[..|chain| - 1]);
  }

  // Undoing the chain's last blocks, tip first, succeeds exactly when they are
  // all recorded; otherwise it stops with nothing left to undo.
  lemma {:induction false} UndoAllFollows(step: Stepper, known: set<Id>, root: Core, st: ExecState, kept: seq<Id>,
      removed: seq<Id>)
    requires Lawful(step, known) && Known(known, kept + Reversed(removed))
    requires Follows(step, root, st, kept + Reversed(removed))
    ensures var r := UndoAll(st, removed);
      if |removed| <= |st.journal| then
        && r.1 == None && Follows(step, root, r.0, kept)
        && r.0.journal == st.journal[..|st.journal| - |removed|]
      else r.1 == Some(NothingToUndo(removed[|st.journal|])) && r.0.journal == []
    decreases |removed|
  {
    if removed == [] {
      assert kept + Reversed(removed) == kept;
      assert st.journal[..|st.journal|] == st.journal;
    } else if st.journal != [] {
      var next := UndoFirst(step, known, root, st, kept, removed);
      InitTwice(st.journal, |removed|);
      UndoAllFollows(step, known, root, next, kept, removed[1..]);
    }
  }

  lemma InitTwice(journal: seq<Entry>, n: nat)
    requires journal != []
    ensures 0 < n <= |journal| ==> journal[..|journal| - 1][..|journal| - n] == journal[..|journal| - n]
  {
  }

  // The first block to undo is the chain's last.
  lemma UndoFirst(step: Stepper, known: set<Id>, root: Core, st: ExecState, kept: seq<Id>,
      removed: seq<Id>) returns (next: ExecState)
    requires Lawful(step, known) && Known(known, kept + Reversed(removed)) && removed != []
    requires Follows(step, root, st, kept + Reversed(removed)) && st.journal != []
    ensures UndoOne(st, removed[0]) == Success(next) && next.journal == st.journal[..|st.journal| - 1]
    ensures Follows(step, root, next, kept + Reversed(removed[1..])) && Known(known, kept + Reversed(removed[1..]))
  {
    var chain, shorter := kept + Reversed(removed), kept + Reversed(removed[1..]);
    assert chain == shorter + [removed[0]];
    assert chain[..|chain| - 1] == shorter;
    UndoFollows(step, known, root, st, chain);
    next := UndoOne(st, removed[0]).value;
  }

  /* ---------- runs of blocks ---------- */

  ghost function StepAll(step: Stepper, window: nat, st: ExecState, added: seq<Id>, outcomes: seq<Outcome>): (ExecState,
      seq<Outcome>)
    decreases |added|
  {
    if added == [] then (st, outcomes) else
      var s := step(st.core, added[0]);
      StepAll(step, window, Filed(window, st, s), added[1..], outcomes + [s.1])
  }

  // The outcomes reported are the ones filed.
  ghost predicate Reported(core: Core, low: nat, outcomes: seq<Outcome>) {
    forall i {:trigger outcomes[i]} :: 0 <= i < |outcomes| ==> low + i + 1 in core.results && outcomes[i] == core.results[low + i + 1]
  }

  lemma {:induction false} StepAllFollows(step: Stepper, known: set<Id>, window: nat, root: Core, st: ExecState,
      low: nat, chain: seq<Id>, added: seq<Id>, outcomes: seq<Outcome>)
    requires Lawful(step, known) && Known(known, chain) && Known(known, added)
    requires Follows(step, root, st, chain)
    requires |chain| == low + |outcomes| && Reported(st.core, low, outcomes)
    ensures var r := StepAll(step, window, st, added, outcomes);
      && Follows(step, root, r.0, chain + added) && Reported(r.0.core, low, r.1) && |r.1| == |outcomes| + |added|
      && (added != [] ==> r.0.journal != [])
    decreases |added|
  {
    if added == [] {
      assert chain + added == chain;
    } else {
      var b := added[0];
      var s := step(st.core, b);
      StepFollows(step, known, window, root, st, chain, b);
      ReportOneMore(step, known, window, root, st, low, chain, b, outcomes);
      assert chain + [b] + added[1..] == chain + added;
      StepAllFollows(step, known, window, root, Filed(window, st, s), low, chain + [b], added[1..], outcomes + [s.1]);
    }
  }

  lemma ReportOneMore(step: Stepper, known: set<Id>, window: nat, root: Core, st: ExecState, low: nat, chain: seq<Id>,
      b: Id, outcomes: seq<Outcome>)
    requires Lawful(step, known) && Known(known, chain) && b in known && Follows(step, root, st, chain)
    requires |chain| == low + |outcomes| && Reported(st.core, low, outcomes)
    ensures var s := step(st.core, b); Reported(Filed(window, st, s).core, low, outcomes + [s.1])
  {
    var core := Replay(step, root, chain);
    var s := step(st.core, b);
    assert LawfulAt(step, core, b);
    assert s == step(core, b);
    ReplayShape(step, known, root, chain);
    forall i | 0 <= i < |outcomes + [s.1]| ensures low + i + 1 in s.0.results && (outcomes + [s.1])[i] == s.0.results[low + i + 1] {
      if i < |outcomes| {
        assert outcomes[i] == core.results[low + i + 1];
      }
    }
  }

  function Max(a: int, b: int): int {
    if a < b then b else a
  }

  // Pruning seals nothing within the window of the height reached.
  lemma {:induction false} StepAllSeals(step: Stepper, known: set<Id>, window: nat, root: Core, st: ExecState,
      chain: seq<Id>, added: seq<Id>, outcomes: seq<Outcome>)
    requires Lawful(step, known) && Known(known, chain) && Known(known, added)
    requires Follows(step, root, st, chain)
    ensures Sealed(StepAll(step, window, st, added, outcomes).0, chain + added)
            <= Max(Sealed(st, chain), |chain| + |added| - window - 1)
    decreases |added|
  {
    if added == [] {
      assert chain + added == chain;
    } else {
      var b := added[0];
      var s := step(st.core, b);
      StepFollows(step, known, window, root, st, chain, b);
      StepJournal(step, known, window, root, st, chain, b);
      assert chain + [b] + added[1..] == chain + added;
      StepAllSeals(step, known, window, root, Filed(window, st, s), chain + [b], added[1..], outcomes + [s.1]);
    }
  }

  // A reorg over a recorded tail follows the new chain.
  lemma ReorgFollows(step: Stepper, known: set<Id>, window: nat, root: Core, st: ExecState, kept: seq<Id>,
      removed: seq<Id>, added: seq<Id>)
    requires Lawful(step, known) && Known(known, kept + Reversed(removed)) && Known(known, added)
    requires Follows(step, root, st, kept + Reversed(removed)) && |removed| <= |st.journal|
    ensures UndoAll(st, removed).1.None?
    ensures var r := StepAll(step, window, UndoAll(st, removed).0, added, []);
      && Follows(step, root, r.0, kept + added) && Reported(r.0.core, |kept|, r.1) && |r.1| == |added|
      && (r.0.journal == [] <==> added == [] && |removed| == |st.journal|)
      && Sealed(r.0, kept + added) <= Max(Sealed(st, kept + Reversed(removed)), |kept| + |added| - window - 1)
  {
    ReversedTwice(removed);
    UndoAllFollows(step, known, root, st, kept, removed);
    assert forall x :: x in kept ==> x in kept + Reversed(removed);
    StepAllFollows(step, known, window, root, UndoAll(st, removed).0, |kept|, kept, added, []);
    StepAllSeals(step, known, window, root, UndoAll(st, removed).0, kept, added, []);
  }

  // Two blocks executed with no window: the executor follows them, and keeps the
  // second's record only.
  lemma TwoExecuted(step: Stepper, known: set<Id>, root: Core, a: Id, b: Id)
    requires Lawful(step, known) && a in known && b in known && IsRoot(root)
    ensures var st := StepAll(step, 0, ExecState(root, []), [a, b], []).0;
      var one := step(root, a).0;
      Follows(step, root, st, [a, b]) && st.journal == [Entry(2, b, step(one, b).2)] && st.core == step(one, b).0
  {
    var start := ExecState(root, []);
    var one := Filed(0, start, step(root, a));
    var two := Filed(0, one, step(one.core, b));
    assert [a, b][1..] == [b] && [b][1..] == [] && [] + [a] == [a] && [a] + [b] == [a, b];
    StepFollows(step, known, 0, root, start, [], a);
    StepFollows(step, known, 0, root, one, [a], b);
    assert LawfulAt(step, root, a) && LawfulAt(step, one.core, b);
    OnePruned(start, step(root, a));
    TwoPruned(one, step(one.core, b));
    assert StepAll(step, 0, start, [a, b], []) == StepAll(step, 0, one, [b], [] + [step(root, a).1]);
  }

  lemma OnePruned(start: ExecState, s: (Core, Outcome, UndoRecord))
    requires start.journal == [] && s.0.height == 1
    ensures Filed(0, start, s).journal == [Entry(1, s.0.tip, s.2)]
  {
    var entry := Entry(1, s.0.tip, s.2);
    assert [] + [entry] == [entry] && [entry][1..] == [];
    assert Pruned([entry], 1) == [entry] + Pruned([], 1);
  }

  // Filing height 2 with no window keeps its own record only.
  lemma TwoPruned(one: ExecState, s: (Core, Outcome, UndoRecord))
    requires |one.journal| == 1 && one.journal[0].height == 1 && s.0.height == 2
    ensures Filed(0, one, s).journal == [Entry(2, s.0.tip, s.2)]
  {
    var entry := Entry(2, s.0.tip, s.2);
    assert (one.journal + [entry])[1..] == [entry] && [entry][1..] == [];
    assert Pruned([entry], 2) == [entry] + Pruned([], 2);
  }

  // Undoing the last record above a pruned one: an executor with a window of zero
  // has executed two blocks and undoes the second; the accounts and height are the
  // first's, but the tip reads genesis. `TipIsRightWhileRecorded` says when this
  // happens.
  lemma LastRecordSpent(step: Stepper, root: Core, a: Id, b: Id)
    requires Lawful(step, {a, b}) && IsRoot(root) && a != root.tip
    ensures var st := StepAll(step, 0, ExecState(root, []), [a, b], []).0;
      && Follows(step, root, st, [a, b]) && UndoOne(st, b).Success?
      && var undone := UndoOne(st, b).value.core;
      && undone == Replay(step, root, [a]).(tip := root.tip) && undone != Replay(step, root, [a])
  {
    TwoExecuted(step, {a, b}, root, a, b);
    var one := step(root, a).0;
    assert LawfulAt(step, root, a) && LawfulAt(step, one, b);
    assert [a][..0] == [] && Replay(step, root, [a]) == step(Replay(step, root, []), a).0 == one;
    assert (one.results[2 := step(one, b).1] - {2}) == one.results by {
      ReplayShape(step, {a, b}, root, [a]);
    }
  }
}
