// The executor always agrees with a fresh replay of the selected chain, through
// any run of reorgs its journal and the walk's guard reach.
module ReplayRefinement {
  import opened Blocks
  import opened Ghostdag
  import opened Linearisation
  import opened OrderIndependence
  import opened BlueWorks
  import opened Reorg
  import opened ExecutedChains
  import opened WorldStates
  import opened Journal
  import opened Execution
  import opened ChainInput
  import opened Executor
  import opened Replays

  // What a node executes from.
  datatype Node = Node(params: Params, parallel: bool, g: Dag, bodies: Bodies)

  function HeaderOf(g: Dag, b: Id): Header {
    if b in g.headers then g.headers[b] else Header(b, [], 0, 0, 0)
  }

  ghost function StepOf(node: Node): Stepper {
    (core: Core, b: Id) => BlockStep(node.params, node.parallel, core, HeaderOf(node.g, b), InputOf(node.g, node.bodies, b))
  }

  lemma SettledIsLawful(params: Params, core: Core, h: Header, ctx: BlockCtx, q: Progress)
    requires Restored(q.accounts, q.block.undo) == core.accounts
    ensures var (next, outcome, undo) := Settled(params, core, h, ctx, q);
      && next.height == core.height + 1 && next.tip == h.hash && outcome.hash == h.hash && outcome.height == core.height + 1
      && next.results == core.results[core.height + 1 := outcome]
      && Restored(next.accounts, undo) == core.accounts
      && forall tip :: Settled(params, core.(tip := tip), h, ctx, q) == (next, outcome, undo)
  {
  }

  lemma BlockStepIsLawful(node: Node, core: Core, b: Id)
    requires Consistent(node.g) && b in node.g.headers
    ensures LawfulAt(StepOf(node), core, b)
  {
    assert Derived(node.g, b);
    var h, tagged := HeaderOf(node.g, b), InputOf(node.g, node.bodies, b);
    var ctx := ContextFor(node.params, core, h);
    var q := Execute(node.params, node.parallel, core.accounts, ctx, tagged);
    ExecutionCovers(node.params, node.parallel, core.accounts, ctx, tagged);
    SettledIsLawful(node.params, core, h, ctx, q);
    forall tip ensures BlockStep(node.params, node.parallel, core.(tip := tip), h, tagged) == Settled(node.params, core, h, ctx, q) {
      assert ContextFor(node.params, core.(tip := tip), h) == ctx;
    }
  }

  lemma StepIsLawful(node: Node)
    requires Consistent(node.g)
    ensures Lawful(StepOf(node), node.g.headers.Keys)
  {
    var step := StepOf(node);
    forall core, b | b in node.g.headers ensures LawfulAt(step, core, b) {
      BlockStepIsLawful(node, core, b);
    }
  }

  lemma HeldBlockExecutes(node: Node, st: ExecState, b: Id)
    requires b in node.g.headers
    ensures var s := StepOf(node)(st.core, b);
      ExecuteChainBlock(node.params, node.parallel, node.g, node.bodies, st, b) == Success((Filed(node.params.window, st, s), s.1))
  {
    var s := BlockStep(node.params, node.parallel, st.core, node.g.headers[b], InputOf(node.g, node.bodies, b));
    assert HeaderOf(node.g, b) == node.g.headers[b];
    assert StepOf(node)(st.core, b) == s;
  }

  // Executing held blocks never fails.
  lemma {:induction false} ExecuteAllSucceeds(node: Node, st: ExecState, added: seq<Id>, outcomes: seq<Outcome>)
    requires Known(node.g.headers.Keys, added)
    ensures var r := StepAll(StepOf(node), node.params.window, st, added, outcomes);
      ExecuteAll(node.params, node.parallel, node.g, node.bodies, st, added, outcomes) == (r.0, Success(r.1))
    decreases |added|
  {
    if added != [] {
      var step := StepOf(node);
      var b := added[0];
      assert b in added;
      var s := step(st.core, b);
      HeldBlockExecutes(node, st, b);
      ExecuteAllSucceeds(node, Filed(node.params.window, st, s), added[1..], outcomes + [s.1]);
    }
  }

  /* ---------- one reorg ---------- */

  // What a node does when the virtual selected parent is `newTip`.
  ghost function Advance(node: Node, st: ExecState, newTip: Id): (ExecState, Done<seq<Outcome>>) {
    var r := ReorgBetween(node.g, st.core.tip, newTip);
    ApplyReorg(node.params, node.parallel, node.g, node.bodies, st, r.removed, r.added)
  }

  // The executor agrees with a fresh one that ran the chain of `tip` from genesis.
  ghost predicate InStep(node: Node, root: Core, st: ExecState, tip: Id) {
    && Consistent(node.g) && IsRoot(root) && root.tip == node.g.genesis
    && tip in node.g.headers
    && Journalled(StepOf(node), root, ExecutedChain(node.g, tip), st.journal)
    && st.core == Replay(StepOf(node), root, ExecutedChain(node.g, tip))
    && (st.journal == [] ==> tip == node.g.genesis)
  }

  // The walk met, the removed blocks are all recorded, and the last record is
  // not spent without anything being executed, short of undoing to genesis.
  predicate Unwindable(g: Dag, st: ExecState, newTip: Id) {
    var r := ReorgBetween(g, st.core.tip, newTip);
    && Met(g, st.core.tip, newTip, r)
    && |r.removed| <= |st.journal|
    && (r.added != [] || |r.removed| < |st.journal| || |r.removed| == st.core.height)
  }

  // A replay's results tell which chain it ran.
  lemma ResultsTellChain(root: Core, core: Core, other: Core, p: seq<Id>, q: seq<Id>)
    requires Shaped(root, core, p) && Shaped(root, other, q) && core.results == other.results
    ensures p == q
  {
    assert |p| in core.results && |q| in core.results;
    assert |p| + 1 !in core.results && |q| + 1 !in core.results;
    forall i | 0 <= i < |p| ensures p[i] == q[i] {
      assert core.results[i + 1].hash == p[i] && other.results[i + 1].hash == q[i];
    }
  }

  lemma InStepShape(node: Node, root: Core, st: ExecState, tip: Id)
    requires InStep(node, root, st, tip)
    ensures Lawful(StepOf(node), node.g.headers.Keys) && Known(node.g.headers.Keys, ExecutedChain(node.g, tip))
    ensures st.core.tip == tip && st.core.height == |ExecutedChain(node.g, tip)|
    ensures Follows(StepOf(node), root, st, ExecutedChain(node.g, tip))
  {
    var step := StepOf(node);
    StepIsLawful(node);
    ExecutedChainHeld(node.g, tip);
    ReplayShape(step, node.g.headers.Keys, root, ExecutedChain(node.g, tip));
  }

  // Undoing `removed` and executing `added` on a chain `kept + removed`: it
  // succeeds exactly when the records reach, and the core is the replay of
  // `kept + added` exactly when a record is left or nothing is executed.
  lemma ApplyFollows(node: Node, root: Core, st: ExecState, tip: Id, kept: seq<Id>, removed: seq<Id>, added: seq<Id>)
    requires InStep(node, root, st, tip) && ExecutedChain(node.g, tip) == kept + Reversed(removed)
    requires Known(node.g.headers.Keys, added) && node.g.genesis !in added
    ensures var r := ApplyReorg(node.params, node.parallel, node.g, node.bodies, st, removed, added);
      && (r.1.Success? <==> |removed| <= |st.journal|)
      && (r.1.Success? ==>
            && Follows(StepOf(node), root, r.0, kept + added)
            && Reported(r.0.core, |kept|, r.1.value) && |r.1.value| == |added|
            && (r.0.journal == [] <==> added == [] && |removed| == |st.journal|)
            && (r.0.core == Replay(StepOf(node), root, kept + added) <==> r.0.journal != [] || kept + added == []))
  {
    var step, known := StepOf(node), node.g.headers.Keys;
    InStepShape(node, root, st, tip);
    ExecutedChainHeld(node.g, tip);
    UndoAllFollows(step, known, root, st, kept, removed);
    if |removed| <= |st.journal| {
      ReorgFollows(step, known, node.params.window, root, st, kept, removed, added);
      ExecuteAllSucceeds(node, UndoAll(st, removed).0, added, []);
      assert forall x :: x in kept ==> x in kept + Reversed(removed);
      TipIsRightWhileRecorded(step, known, root, StepAll(step, node.params.window, UndoAll(st, removed).0, added, []).0,
          kept + added);
    }
  }

  // What a reorg leads to, given the chain it keeps.
  lemma ReorgDecides(node: Node, root: Core, st: ExecState, tip: Id, newTip: Id, kept: seq<Id>, r: ChainReorg)
    requires InStep(node, root, st, tip) && newTip in node.g.headers
    requires r == ReorgBetween(node.g, tip, newTip)
    requires ExecutedChain(node.g, tip) == kept + Reversed(r.removed)
    requires Known(node.g.headers.Keys, r.added) && node.g.genesis !in r.added
    requires Met(node.g, tip, newTip, r) <==> kept + r.added == ExecutedChain(node.g, newTip)
    ensures st.core.tip == tip
    ensures Unwindable(node.g, st, newTip) <==> Arrives(node, root, Advance(node, st, newTip), newTip)
    ensures Unwindable(node.g, st, newTip) ==> InStep(node, root, Advance(node, st, newTip).0, newTip)
  {
    InStepShape(node, root, st, tip);
    ReversedTwice(r.removed);
    ApplyFollows(node, root, st, tip, kept, r.removed, r.added);
    if |r.removed| <= |st.journal| {
      assert forall x :: x in kept ==> x in ExecutedChain(node.g, tip);
      OtherChainOtherCore(node, root, Advance(node, st, newTip).0, kept + r.added, newTip);
      ExecutedChainHeld(node.g, newTip);
    }
  }

  // The reorg succeeded and its core is the replay of the new tip's chain.
  ghost predicate Arrives(node: Node, root: Core, r: (ExecState, Done<seq<Outcome>>), newTip: Id)
    requires Grounded(node.g)
  {
    r.1.Success? && r.0.core == Replay(StepOf(node), root, ExecutedChain(node.g, newTip))
  }

  // Replay refinement, one reorg. An executor that agrees with a fresh replay of
  // its tip's chain is moved to a new tip successfully, and then agrees with a
  // fresh replay of the new tip's chain, exactly when the reorg is unwindable.
  lemma AdvanceIsReplay(node: Node, root: Core, st: ExecState, tip: Id, newTip: Id)
    requires InStep(node, root, st, tip) && newTip in node.g.headers
    ensures st.core.tip == tip
    ensures Unwindable(node.g, st, newTip) <==> Arrives(node, root, Advance(node, st, newTip), newTip)
    ensures Unwindable(node.g, st, newTip) ==> InStep(node, root, Advance(node, st, newTip).0, newTip)
  {
    var g := node.g;
    var above, below, c := ChainsSplit(g, tip, newTip);
    var i, j := WalkFindsSplit(g, tip, newTip, above, below, c, MAX_REORG_WALK);
    WalkCut(g, tip, newTip, above, below, c, i, j);
    ReorgDecides(node, root, st, tip, newTip, ExecutedChain(g, c) + Reversed(above[i..]), ReorgBetween(g, tip, newTip));
  }

  lemma ApplySeals(node: Node, root: Core, st: ExecState, tip: Id, kept: seq<Id>, removed: seq<Id>, added: seq<Id>)
    requires InStep(node, root, st, tip) && ExecutedChain(node.g, tip) == kept + Reversed(removed)
    requires Known(node.g.headers.Keys, added) && |removed| <= |st.journal|
    ensures var next := ApplyReorg(node.params, node.parallel, node.g, node.bodies, st, removed, added).0;
      || Sealed(next, kept + added) <= Sealed(st, kept + Reversed(removed))
      || Sealed(next, kept + added) <= |kept + added| - node.params.window - 1
  {
    var step, known := StepOf(node), node.g.headers.Keys;
    InStepShape(node, root, st, tip);
    ReorgFollows(step, known, node.params.window, root, st, kept, removed, added);
    ExecuteAllSucceeds(node, UndoAll(st, removed).0, added, []);
  }

  // An unwindable reorg seals nothing within the window of the height reached.
  lemma AdvanceSeals(node: Node, root: Core, st: ExecState, tip: Id, newTip: Id)
    requires InStep(node, root, st, tip) && newTip in node.g.headers && st.core.tip == tip
    requires Unwindable(node.g, st, newTip)
    ensures var next := Advance(node, st, newTip).0;
      || Sealed(next, ExecutedChain(node.g, newTip)) <= Sealed(st, ExecutedChain(node.g, tip))
      || Sealed(next, ExecutedChain(node.g, newTip)) <= |ExecutedChain(node.g, newTip)| - node.params.window - 1
  {
    var g := node.g;
    var above, below, c := ChainsSplit(g, tip, newTip);
    var i, j := WalkFindsSplit(g, tip, newTip, above, below, c, MAX_REORG_WALK);
    WalkCut(g, tip, newTip, above, below, c, i, j);
    ApplySeals(node, root, st, tip, ExecutedChain(g, c) + Reversed(above[i..]), above[..i], Reversed(below[..j]));
  }

  // Having executed one chain, the core is not the replay of another's tip.
  lemma OtherChainOtherCore(node: Node, root: Core, st: ExecState, chain: seq<Id>, newTip: Id)
    requires Consistent(node.g) && Known(node.g.headers.Keys, chain) && newTip in node.g.headers && IsRoot(root)
    requires Follows(StepOf(node), root, st, chain)
    ensures st.core.results == Replay(StepOf(node), root, ExecutedChain(node.g, newTip)).results ==> chain == ExecutedChain(node.g, newTip)
  {
    var step, known := StepOf(node), node.g.headers.Keys;
    StepIsLawful(node);
    ExecutedChainHeld(node.g, newTip);
    ReplayShape(step, known, root, chain);
    ReplayShape(step, known, root, ExecutedChain(node.g, newTip));
    if st.core.results == Replay(step, root, ExecutedChain(node.g, newTip)).results {
      ResultsTellChain(root, Replay(step, root, chain), Replay(step, root, ExecutedChain(node.g, newTip)), chain,
          ExecutedChain(node.g, newTip));
    }
  }

  /* ---------- runs ---------- */

  // A later state of the same node: more blocks, every held body as it was.
  ghost predicate Later(node: Node, node': Node) {
    && node.params == node'.params && node.parallel == node'.parallel
    && Extends(node.g, node.bodies, node'.g, node'.bodies)
  }

  lemma StepIsStable(node: Node, node': Node, core: Core, b: Id)
    requires Later(node, node') && b in node.g.headers
    ensures StepOf(node)(core, b) == StepOf(node')(core, b)
  {
    InputIsStable(node.g, node.bodies, node'.g, node'.bodies, b);
  }

  lemma {:induction false} ReplayIsStable(node: Node, node': Node, root: Core, chain: seq<Id>)
    requires Later(node, node') && Known(node.g.headers.Keys, chain)
    ensures Replay(StepOf(node), root, chain) == Replay(StepOf(node'), root, chain)
    decreases |chain|
  {
    if chain != [] {
      var init := chain[..|chain| - 1];
      ReplayIsStable(node, node', root, init);
      assert chain[|chain| - 1] in chain;
      StepIsStable(node, node', Replay(StepOf(node), root, init), chain[|chain| - 1]);
    }
  }

  lemma {:induction false} ExecutedChainIsStable(g: Dag, g': Dag, tip: Id)
    requires Agree(g, g', g.headers.Keys) && tip in g.headers
    ensures tip in g'.headers && ExecutedChain(g, tip) == ExecutedChain(g', tip)
    decreases g.data[tip].height
  {
    if tip != g.genesis {
      assert Placed(g, tip) && Placed(g', tip);
      ExecutedChainIsStable(g, g', g.data[tip].selectedParent);
    }
  }

  // Steps that replay every prefix alike undo alike.
  lemma JournalCarries(step: Stepper, step': Stepper, root: Core, chain: seq<Id>, journal: seq<Entry>)
    requires forall m {:trigger chain[..m]} :: 0 <= m <= |chain| ==> Replay(step, root, chain[..m]) == Replay(step', root, chain[..m])
    requires Journalled(step, root, chain, journal)
    ensures Journalled(step', root, chain, journal)
  {
    forall j | 0 <= j < |journal| ensures Undoes(step', root, chain, |chain| - |journal| + j, journal[j]) {
      assert Undoes(step, root, chain, |chain| - |journal| + j, journal[j]);
    }
  }

  lemma JournalIsStable(node: Node, node': Node, root: Core, chain: seq<Id>, journal: seq<Entry>)
    requires Later(node, node') && Known(node.g.headers.Keys, chain)
    requires Journalled(StepOf(node), root, chain, journal)
    ensures Journalled(StepOf(node'), root, chain, journal)
  {
    forall m {:trigger chain[..m]} | 0 <= m <= |chain|
      ensures Replay(StepOf(node), root, chain[..m]) == Replay(StepOf(node'), root, chain[..m])
    {
      ReplayIsStable(node, node', root, chain[..m]);
    }
    JournalCarries(StepOf(node), StepOf(node'), root, chain, journal);
  }

  // Receiving more blocks and bodies changes nothing for what is executed.
  lemma InStepIsStable(node: Node, node': Node, root: Core, st: ExecState, tip: Id)
    requires InStep(node, root, st, tip) && Later(node, node')
    ensures InStep(node', root, st, tip) && ExecutedChain(node.g, tip) == ExecutedChain(node'.g, tip)
  {
    ExecutedChainHeld(node.g, tip);
    ExecutedChainIsStable(node.g, node'.g, tip);
    ReplayIsStable(node, node', root, ExecutedChain(node.g, tip));
    JournalIsStable(node, node', root, ExecutedChain(node.g, tip), st.journal);
  }

  // The node grows, and its selected tip moves.
  datatype Event = Event(node: Node, newTip: Id)

  ghost function After(st: ExecState, e: Event): ExecState {
    Advance(e.node, st, e.newTip).0
  }

  ghost function Run(st: ExecState, events: seq<Event>): ExecState
    decreases |events|
  {
    if events == [] then st else Run(After(st, events[0]), events[1..])
  }

  ghost predicate Orderly(node: Node, events: seq<Event>)
    decreases |events|
  {
    events != [] ==>
      && Later(node, events[0].node) && events[0].newTip in events[0].node.g.headers
      && Orderly(events[0].node, events[1..])
  }

  ghost predicate AllUnwindable(st: ExecState, events: seq<Event>)
    decreases |events|
  {
    events != [] ==>
      && Unwindable(events[0].node.g, st, events[0].newTip)
      && AllUnwindable(After(st, events[0]), events[1..])
  }

  function LastOf(node: Node, tip: Id, events: seq<Event>): (last: Event)
    ensures events != [] ==> last == events[|events| - 1]
    decreases |events|
  {
    if events == [] then Event(node, tip) else LastOf(events[0].node, events[0].newTip, events[1..])
  }

  // Replay refinement, every run: whatever sequence of reorgs was applied, the
  // executor's accounts, results, height and tip are the last chain's replay.
  lemma {:induction false} RunIsReplay(node: Node, root: Core, st: ExecState, tip: Id, events: seq<Event>)
    requires InStep(node, root, st, tip) && Orderly(node, events) && AllUnwindable(st, events)
    ensures var last := LastOf(node, tip, events); InStep(last.node, root, Run(st, events), last.newTip)
    decreases |events|
  {
    if events != [] {
      EventKeepsInStep(node, root, st, tip, events[0]);
      RunIsReplay(events[0].node, root, After(st, events[0]), events[0].newTip, events[1..]);
    }
  }

  lemma EventKeepsInStep(node: Node, root: Core, st: ExecState, tip: Id, e: Event)
    requires InStep(node, root, st, tip) && Later(node, e.node) && e.newTip in e.node.g.headers
    requires Unwindable(e.node.g, st, e.newTip)
    ensures InStep(e.node, root, After(st, e), e.newTip)
  {
    InStepIsStable(node, e.node, root, st, tip);
    AdvanceIsReplay(e.node, root, st, tip, e.newTip);
  }

  lemma NewExecutorInStep(node: Node, accounts: Accounts)
    requires Consistent(node.g)
    ensures var st := ExecState(Executor.Genesis(node.params, accounts, node.g.genesis), []);
      InStep(node, st.core, st, node.g.genesis)
  {
  }

  // A new executor reaches any tip the walk reaches, with nothing to undo.
  lemma FreshIsUnwindable(node: Node, accounts: Accounts, tip: Id)
    requires Consistent(node.g) && tip in node.g.headers && |SelectedChain(node.g, tip)| <= MAX_REORG_WALK
    ensures Unwindable(node.g, ExecState(Executor.Genesis(node.params, accounts, node.g.genesis), []), tip)
  {
    var g := node.g;
    var above, below, c := ChainsSplit(g, g.genesis, tip);
    NothingAbove(g, g.genesis, above, c);
    if above != [] {
      GenesisOnce(g, g.genesis, above, c);
      assert false;
    }
    var i, j := WalkFindsSplit(g, g.genesis, tip, above, below, c, MAX_REORG_WALK);
    MetExactly(g, g.genesis, tip, above, below, c, i, j);
    ReversedTwice(below[..j]);
  }

  ghost predicate WithinGuard(e: Event) {
    Consistent(e.node.g) && e.newTip in e.node.g.headers && |SelectedChain(e.node.g, e.newTip)| <= MAX_REORG_WALK
  }

  // The executor after a run equals a fresh executor that ran the current
  // selected chain from genesis.
  lemma RunIsFreshReplay(node: Node, accounts: Accounts, events: seq<Event>)
    requires Consistent(node.g) && Orderly(node, events) && events != []
    requires AllUnwindable(ExecState(Executor.Genesis(node.params, accounts, node.g.genesis), []), events)
    requires WithinGuard(events[|events| - 1])
    ensures var begin := ExecState(Executor.Genesis(node.params, accounts, node.g.genesis), []);
      var last := events[|events| - 1];
      && Advance(last.node, begin, last.newTip).1.Success?
      && Run(begin, events).core == Advance(last.node, begin, last.newTip).0.core
  {
    var start := ExecState(Executor.Genesis(node.params, accounts, node.g.genesis), []);
    var last := events[|events| - 1];
    NewExecutorInStep(node, accounts);
    RunIsReplay(node, start.core, start, node.g.genesis, events);
    LastIsLater(node, events);
    NewExecutorInStep(last.node, accounts);
    FreshIsUnwindable(last.node, accounts, last.newTip);
    AdvanceIsReplay(last.node, start.core, start, node.g.genesis, last.newTip);
  }

  lemma {:induction false} LastIsLater(node: Node, events: seq<Event>)
    requires Orderly(node, events) && events != []
    ensures var last := events[|events| - 1];
      && last.node.params == node.params && last.node.g.genesis == node.g.genesis
      && Consistent(last.node.g) && last.newTip in last.node.g.headers
    decreases |events|
  {
    if |events| > 1 {
      LastIsLater(events[0].node, events[1..]);
    }
  }

  /* ---------- what the pruning window promises ---------- */

  // At most what lies below the window of the greatest height is sealed.
  ghost predicate SealedBelow(node: Node, st: ExecState, tip: Id, peak: nat)
    requires Grounded(node.g)
  {
    var chain := ExecutedChain(node.g, tip);
    |chain| <= peak && (Sealed(st, chain) <= 0 || Sealed(st, chain) < peak - node.params.window)
  }

  // The reorg forks no lower than the window below the greatest height.
  predicate Shallow(node: Node, st: ExecState, peak: nat, newTip: Id) {
    var r := ReorgBetween(node.g, st.core.tip, newTip);
    Met(node.g, st.core.tip, newTip, r) && peak - node.params.window <= st.core.height - |r.removed|
  }

  ghost predicate AllShallow(st: ExecState, peak: nat, events: seq<Event>)
    decreases |events|
  {
    events != [] ==>
      && Shallow(events[0].node, st, peak, events[0].newTip)
      && AllShallow(After(st, events[0]), Higher(peak, After(st, events[0])), events[1..])
  }

  ghost function Higher(peak: nat, st: ExecState): nat {
    if st.core.height > peak then st.core.height else peak
  }

  lemma ShallowUnwinds(node: Node, root: Core, st: ExecState, tip: Id, peak: nat, newTip: Id)
    requires InStep(node, root, st, tip) && newTip in node.g.headers
    requires SealedBelow(node, st, tip, peak) && Shallow(node, st, peak, newTip)
    ensures Unwindable(node.g, st, newTip)
  {
    var g := node.g;
    InStepShape(node, root, st, tip);
    var above, below, c := ChainsSplit(g, tip, newTip);
    var i, j := WalkFindsSplit(g, tip, newTip, above, below, c, MAX_REORG_WALK);
    WalkCut(g, tip, newTip, above, below, c, i, j);
    ReversedTwice(above[..i]);
    assert |ExecutedChain(g, tip)| >= i;
  }

  lemma EventKeepsSealed(node: Node, root: Core, st: ExecState, tip: Id, peak: nat, e: Event)
    requires InStep(node, root, st, tip) && Later(node, e.node) && e.newTip in e.node.g.headers
    requires SealedBelow(node, st, tip, peak) && Shallow(e.node, st, peak, e.newTip)
    ensures Unwindable(e.node.g, st, e.newTip)
    ensures InStep(e.node, root, After(st, e), e.newTip)
    ensures SealedBelow(e.node, After(st, e), e.newTip, Higher(peak, After(st, e)))
  {
    InStepIsStable(node, e.node, root, st, tip);
    ShallowUnwinds(e.node, root, st, tip, peak, e.newTip);
    EventKeepsInStep(node, root, st, tip, e);
    InStepShape(e.node, root, st, tip);
    AdvanceSeals(e.node, root, st, tip, e.newTip);
    InStepShape(e.node, root, After(st, e), e.newTip);
  }

  // Records older than the window are never needed: if no reorg forks lower than
  // the window below the greatest height reached, every reorg can be unwound.
  lemma {:induction false} ShallowRunUnwinds(node: Node, root: Core, st: ExecState, tip: Id, peak: nat,
      events: seq<Event>)
    requires InStep(node, root, st, tip) && Orderly(node, events)
    requires SealedBelow(node, st, tip, peak) && AllShallow(st, peak, events)
    ensures AllUnwindable(st, events)
    decreases |events|
  {
    if events != [] {
      EventKeepsSealed(node, root, st, tip, peak, events[0]);
      ShallowRunUnwinds(events[0].node, root, After(st, events[0]), events[0].newTip,
          Higher(peak, After(st, events[0])), events[1..]);
    }
  }

  // From the start: as long as no reorg forks lower than the window, a new node's
  // executor stays equal to a fresh one that ran the current selected chain.
  lemma ShallowRunIsFreshReplay(node: Node, accounts: Accounts, events: seq<Event>)
    requires Consistent(node.g) && Orderly(node, events) && events != [] && WithinGuard(events[|events| - 1])
    requires AllShallow(ExecState(Executor.Genesis(node.params, accounts, node.g.genesis), []), 0, events)
    ensures var begin := ExecState(Executor.Genesis(node.params, accounts, node.g.genesis), []);
      var last := events[|events| - 1];
      && Advance(last.node, begin, last.newTip).1.Success?
      && Run(begin, events).core == Advance(last.node, begin, last.newTip).0.core
  {
    var begin := ExecState(Executor.Genesis(node.params, accounts, node.g.genesis), []);
    NewExecutorInStep(node, accounts);
    assert ExecutedChain(node.g, node.g.genesis) == [];
    ShallowRunUnwinds(node, begin.core, begin, node.g.genesis, 0, events);
    RunIsFreshReplay(node, accounts, events);
  }
}
