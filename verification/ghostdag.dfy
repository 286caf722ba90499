// What GHOSTDAG derives for a block, as functions of the blocks in its past:
// selected parent, merge set and its order, k-cluster colouring, blue score,
// blue work and topological height.
module Ghostdag {
  import opened Blocks
  import opened Reachability
  import opened Compact
  import Work

  datatype GhostdagData = GhostdagData(
    selectedParent: Id,
    blueScore: nat,
    blueWork: U256,
    blues: seq<Id>,
    reds: seq<Id>,
    ordered: seq<Id>,
    height: nat,
    anticoneSizes: map<Id, nat>)

  // The part of a DAG store that GHOSTDAG data is a function of.
  datatype Dag = Dag(genesis: Id, k: nat, limit: nat, headers: Headers, data: map<Id, GhostdagData>)

  datatype DagError =
    | AlreadyPresent(block: Id)
    | NoParents(block: Id)
    | MissingParent(block: Id, parent: Id)
    | MergesetTooLarge(block: Id, limit: nat)

  datatype Result<+T> = Ok(value: T) | Err(error: DagError)

  /* ---------- shape of a store ---------- */

  ghost predicate Placed(g: Dag, b: Id)
    requires b in g.headers && g.headers.Keys == g.data.Keys
  {
    && g.headers[b].parents != []
    && g.data[b].selectedParent in g.headers[b].parents
    && forall p :: p in g.headers[b].parents ==> p in g.headers && g.data[p].height < g.data[b].height
  }

  // Parent-closed, with one parentless block, and every block above its parents.
  ghost predicate Grounded(g: Dag) {
    && g.genesis in g.headers && g.headers.Keys == g.data.Keys
    && g.headers[g.genesis].parents == []
    && forall b {:trigger Placed(g, b)} :: b in g.headers && b != g.genesis ==> Placed(g, b)
  }

  lemma ParentIsLower(g: Dag, p: Id, d: Id)
    requires Grounded(g) && d in g.headers && p in g.headers[d].parents
    ensures d != g.genesis && p in g.headers
    ensures g.data[p].height < g.data[d].height
  {
    assert d != g.genesis;
    assert Placed(g, d);
  }

  lemma ParentsHeld(g: Dag)
    requires Grounded(g)
    ensures Closed(g.headers)
  {
    forall d, p | d in g.headers && p in g.headers[d].parents
      ensures p in g.headers
    {
      ParentIsLower(g, p, d);
    }
  }

  // A proper ancestor is strictly lower: what makes pruning by height sound.
  lemma {:induction false} AncestorsAreLower(g: Dag, a: Id, d: Id)
    requires Grounded(g) && d in g.headers && Reaches(g.headers, a, d)
    ensures a in g.headers
    ensures a != d ==> g.data[a].height < g.data[d].height
    decreases g.data[d].height
  {
    if a != d {
      var p := ReachesSplit(g.headers, a, d);
      ParentIsLower(g, p, d);
      AncestorsAreLower(g, a, p);
    }
  }

  // Genesis is in every block's past.
  lemma {:induction false} GenesisReachesAll(g: Dag, b: Id)
    requires Grounded(g) && b in g.headers
    ensures Reaches(g.headers, g.genesis, b)
    decreases g.data[b].height
  {
    if b == g.genesis {
      ReachesSelf(g.headers, b);
    } else {
      assert Placed(g, b);
      var p := g.data[b].selectedParent;
      GenesisReachesAll(g, p);
      ReachesStep(g.headers, g.genesis, p, b);
    }
  }

  /* ---------- selected parent ---------- */

  function BlueWork(g: Dag, b: Id): U256 {
    if b in g.data then g.data[b].blueWork else 0
  }

  function Height(g: Dag, b: Id): nat {
    if b in g.data then g.data[b].height else 0
  }

  // `compare_blocks`: by blue work, then by hash.
  predicate Below(g: Dag, a: Id, b: Id) {
    BlueWork(g, a) < BlueWork(g, b) || (BlueWork(g, a) == BlueWork(g, b) && a < b)
  }

  // `select_parent`
  function SelectParent(g: Dag, best: Id, rest: seq<Id>): Id
    decreases |rest|
  {
    if rest == [] then best
    else SelectParent(g, if Below(g, best, rest[0]) then rest[0] else best, rest[1..])
  }

  lemma {:induction false} SelectParentIsGreatest(g: Dag, best: Id, rest: seq<Id>)
    ensures SelectParent(g, best, rest) in [best] + rest
    ensures forall p :: p in [best] + rest ==> !Below(g, SelectParent(g, best, rest), p)
    decreases |rest|
  {
    if rest == [] {
    } else {
      var next := if Below(g, best, rest[0]) then rest[0] else best;
      SelectParentIsGreatest(g, next, rest[1..]);
      assert forall p :: p in [best] + rest <==> p == best || p == rest[0] || p in rest[1..];
      assert forall p :: p in [next] + rest[1..] <==> p == next || p in rest[1..];
      assert !Below(g, SelectParent(g, best, rest), next);
    }
  }

  /* ---------- merge set ---------- */

  // `x` is in the past of a block with these parents.
  ghost predicate InPast(hs: Headers, x: Id, parents: seq<Id>) {
    exists p :: p in parents && Reaches(hs, x, p)
  }

  // past(block) minus past(selected parent), the selected parent included in the latter.
  ghost function MergeSet(g: Dag, parents: seq<Id>, sp: Id): set<Id> {
    set x | x in g.headers && InPast(g.headers, x, parents) && !Reaches(g.headers, x, sp)
  }

  ghost function Least(g: Dag, s: set<Id>): (m: Id)
    requires s != {}
    ensures m in s && forall y :: y in s && y != m ==> Below(g, m, y)
  {
    var x :| x in s;
    if s == {x} then x else
      assert s - {x} != {};
      var m := Least(g, s - {x});
      assert forall y :: y in s ==> y == x || y in s - {x};
      if Below(g, x, m) then x else m
  }

  // The members of `s` in ascending `compare_blocks` order.
  ghost function Sorted(g: Dag, s: set<Id>): (q: seq<Id>)
    ensures |q| == |s|
  {
    if s == {} then [] else var m := Least(g, s); [m] + Sorted(g, s - {m})
  }

  // A block may be emitted once its parents inside the set have been.
  predicate Ready(g: Dag, members: set<Id>, out: seq<Id>, b: Id) {
    b in g.headers ==> forall p :: p in g.headers[b].parents ==> p !in members || p in out
  }

  // One sweep of `topological_sort`: what was emitted, and what is left over.
  function Sweep(g: Dag, members: set<Id>, remaining: seq<Id>, out: seq<Id>, left: seq<Id>): (r: (seq<Id>, seq<Id>))
    ensures |r.0| + |r.1| == |remaining| + |out| + |left|
    decreases |remaining|
  {
    if remaining == [] then (out, left)
    else if Ready(g, members, out, remaining[0]) then
      Sweep(g, members, remaining[1..], out + [remaining[0]], left)
    else
      Sweep(g, members, remaining[1..], out, left + [remaining[0]])
  }

  // Sweeps until nothing is left, or dumps the rest if a sweep emits nothing.
  function Sweeps(g: Dag, members: set<Id>, remaining: seq<Id>, out: seq<Id>): (r: seq<Id>)
    ensures |r| == |remaining| + |out|
    decreases |remaining|
  {
    if remaining == [] then out else
      var (out', left) := Sweep(g, members, remaining, out, []);
      if |left| >= |remaining| then out' + left else Sweeps(g, members, left, out')
  }

  // `topological_sort`
  ghost function TopologicalSort(g: Dag, s: set<Id>): seq<Id> {
    Sweeps(g, s, Sorted(g, s), [])
  }

  /* ---------- colouring ---------- */

  datatype Verdict = Red | Blue(anticone: nat, updates: seq<(Id, nat)>)

  function SizeOf(sizes: map<Id, nat>, b: Id): nat {
    if b in sizes then sizes[b] else 0
  }

  // Counts the listed blues outside the candidate's past, giving up where the
  // candidate's anticone or an existing blue's would exceed `k`.
  ghost function Scan(g: Dag, c: Id, blues: seq<Id>, sizes: map<Id, nat>, count: nat, updates: seq<(Id, nat)>): Verdict
    decreases |blues|
  {
    if blues == [] then Blue(count, updates)
    else if Reaches(g.headers, blues[0], c) then Scan(g, c, blues[1..], sizes, count, updates)
    else if count + 1 > g.k then Red
    else
      var existing := SizeOf(sizes, blues[0]);
      if existing >= g.k then Red
      else Scan(g, c, blues[1..], sizes, count + 1, updates + [(blues[0], existing + 1)])
  }

  // The same over the blues recorded along the selected chain, down to the
  // first chain block in the candidate's past.
  ghost function ScanChain(g: Dag, c: Id, chain: Id, count: nat, updates: seq<(Id, nat)>): Verdict
    requires Grounded(g) && chain in g.headers
    decreases g.data[chain].height
  {
    if Reaches(g.headers, chain, c) then Blue(count, updates) else
      match Scan(g, c, g.data[chain].blues, g.data[chain].anticoneSizes, count, updates)
      case Red => Red
      case Blue(n, u) =>
        if chain == g.genesis then Blue(n, u)
        else assert Placed(g, chain); ScanChain(g, c, g.data[chain].selectedParent, n, u)
  }

  // `colour_candidate`
  ghost function ColourCandidate(g: Dag, c: Id, sp: Id, blues: seq<Id>, sizes: map<Id, nat>): Verdict
    requires Grounded(g) && sp in g.headers
  {
    if |blues| > g.k then Red else
      match Scan(g, c, blues, sizes, 0, [])
      case Red => Red
      case Blue(n, u) => ScanChain(g, c, sp, n, u)
  }

  datatype Colouring = Colouring(blues: seq<Id>, reds: seq<Id>, sizes: map<Id, nat>)

  function ApplyUpdates(sizes: map<Id, nat>, updates: seq<(Id, nat)>): map<Id, nat>
    decreases |updates|
  {
    if updates == [] then sizes
    else ApplyUpdates(sizes[updates[0].0 := updates[0].1], updates[1..])
  }

  function Colour(col: Colouring, c: Id, verdict: Verdict): Colouring {
    match verdict
    case Red => col.(reds := col.reds + [c])
    case Blue(n, u) => col.(blues := col.blues + [c], sizes := ApplyUpdates(col.sizes[c := n], u))
  }

  ghost function ColourAll(g: Dag, sp: Id, candidates: seq<Id>, col: Colouring): Colouring
    requires Grounded(g) && sp in g.headers
    decreases |candidates|
  {
    if candidates == [] then col
    else
      var c := candidates[0];
      ColourAll(g, sp, candidates[1..], Colour(col, c, ColourCandidate(g, c, sp, col.blues, col.sizes)))
  }

  /* ---------- a block's data ---------- */

  function BlockWork(g: Dag, b: Id): U256 {
    if b in g.headers then Work.ForBits(g.headers[b].bits) else 0
  }

  function AddWork(g: Dag, work: U256, blues: seq<Id>): U256
    decreases |blues|
  {
    if blues == [] then work
    else AddWork(g, Work.SaturatingAdd(work, BlockWork(g, blues[0])), blues[1..])
  }

  function MaxHeight(g: Dag, highest: nat, parents: seq<Id>): nat
    decreases |parents|
  {
    if parents == [] then highest
    else MaxHeight(g, if Height(g, parents[0]) > highest then Height(g, parents[0]) else highest, parents[1..])
  }

  ghost predicate Attachable(g: Dag, h: Header) {
    Grounded(g) && h.parents != [] && forall p :: p in h.parents ==> p in g.headers
  }

  function SelectedParent(g: Dag, h: Header): Id
    requires h.parents != []
  {
    SelectParent(g, h.parents[0], h.parents[1..])
  }

  function InitialColouring(sp: Id): Colouring {
    Colouring([sp], [], map[sp := 0])
  }

  function Assemble(g: Dag, h: Header, sp: Id, ordered: seq<Id>, col: Colouring): GhostdagData
    requires sp in g.data && |col.blues| >= 1
  {
    GhostdagData(
      sp,
      g.data[sp].blueScore + |col.blues|,
      Work.SaturatingAdd(AddWork(g, g.data[sp].blueWork, col.blues[1..]), Work.ForBits(h.bits)),
      col.blues, col.reds, ordered,
      MaxHeight(g, 0, h.parents) + 1,
      col.sizes)
  }

  // The merge set of a block about to be added, and its order.
  ghost function Merged(g: Dag, h: Header): set<Id>
    requires h.parents != []
  {
    MergeSet(g, h.parents, SelectedParent(g, h))
  }

  ghost function MergeOrder(g: Dag, h: Header): seq<Id>
    requires h.parents != []
  {
    TopologicalSort(g, Merged(g, h))
  }

  // The selected parent is blue and first; the merge set is coloured in order.
  ghost function Coloured(g: Dag, h: Header): (col: Colouring)
    requires Attachable(g, h)
    ensures |col.blues| >= 1
  {
    var sp := SelectedParent(g, h);
    SelectedParentIsParent(g, h);
    ColourAllKeeps(g, sp, MergeOrder(g, h), InitialColouring(sp));
    ColourAll(g, sp, MergeOrder(g, h), InitialColouring(sp))
  }

  // `compute_ghostdag`
  ghost function Derive(g: Dag, h: Header): Result<GhostdagData>
    requires Attachable(g, h)
  {
    SelectedParentIsParent(g, h);
    if |Merged(g, h)| > g.limit then Err(MergesetTooLarge(h.hash, g.limit))
    else Ok(Assemble(g, h, SelectedParent(g, h), MergeOrder(g, h), Coloured(g, h)))
  }

  lemma SelectedParentIsParent(g: Dag, h: Header)
    requires h.parents != []
    ensures SelectedParent(g, h) in h.parents
    ensures forall p :: p in h.parents ==> !Below(g, SelectedParent(g, h), p)
  {
    SelectParentIsGreatest(g, h.parents[0], h.parents[1..]);
    assert h.parents == [h.parents[0]] + h.parents[1..];
  }

  // Colouring only appends: earlier blues stay, in place.
  lemma {:induction false} ColourAllKeeps(g: Dag, sp: Id, candidates: seq<Id>, col: Colouring)
    requires Grounded(g) && sp in g.headers
    ensures col.blues <= ColourAll(g, sp, candidates, col).blues
    decreases |candidates|
  {
    if candidates == [] {
    } else {
      var c := candidates[0];
      ColourAllKeeps(g, sp, candidates[1..], Colour(col, c, ColourCandidate(g, c, sp, col.blues, col.sizes)));
    }
  }

  lemma {:induction false} MaxHeightBounds(g: Dag, highest: nat, parents: seq<Id>)
    ensures highest <= MaxHeight(g, highest, parents)
    ensures forall p :: p in parents ==> Height(g, p) <= MaxHeight(g, highest, parents)
    ensures MaxHeight(g, highest, parents) == highest ||
            exists p :: p in parents && Height(g, p) == MaxHeight(g, highest, parents)
    decreases |parents|
  {
    if parents == [] {
    } else {
      var h := if Height(g, parents[0]) > highest then Height(g, parents[0]) else highest;
      MaxHeightBounds(g, h, parents[1..]);
      assert forall p :: p in parents <==> p == parents[0] || p in parents[1..];
    }
  }

  /* ---------- stores whose data is what GHOSTDAG derives ---------- */

  function GenesisData(h: Header): GhostdagData {
    GhostdagData(h.hash, 0, Work.ForBits(h.bits), [], [], [], 0, map[])
  }

  ghost predicate Derived(g: Dag, b: Id)
    requires Grounded(g) && b in g.headers
  {
    && g.headers[b].hash == b
    && if b == g.genesis then g.data[b] == GenesisData(g.headers[b])
       else assert Placed(g, b); Derive(g, g.headers[b]) == Ok(g.data[b])
  }

  // Every block's data is what `Derive` computes for it in this very store.
  ghost predicate Consistent(g: Dag) {
    Grounded(g) && forall b {:trigger Derived(g, b)} :: b in g.headers ==> Derived(g, b)
  }

  // `DagStore::new`
  function NewDag(genesis: Header, k: nat, limit: nat): Dag {
    Dag(genesis.hash, k, limit, map[genesis.hash := genesis], map[genesis.hash := GenesisData(genesis)])
  }

  function FirstMissing(g: Dag, parents: seq<Id>): (r: Option<Id>)
    ensures r.None? <==> forall p :: p in parents ==> p in g.headers
    ensures r.Some? ==> r.value in parents && r.value !in g.headers
  {
    if parents == [] then None
    else if parents[0] !in g.headers then Some(parents[0])
    else FirstMissing(g, parents[1..])
  }

  // `add_block`
  ghost function AddBlock(g: Dag, h: Header): Result<Dag>
    requires Grounded(g)
  {
    if h.hash in g.headers then Err(AlreadyPresent(h.hash))
    else if h.parents == [] then Err(NoParents(h.hash))
    else match FirstMissing(g, h.parents)
      case Some(p) => Err(MissingParent(h.hash, p))
      case None =>
        match Derive(g, h)
        case Err(e) => Err(e)
        case Ok(d) => Ok(Attach(g, h, d))
  }

  function Attach(g: Dag, h: Header, d: GhostdagData): Dag {
    g.(headers := g.headers[h.hash := h], data := g.data[h.hash := d])
  }
}
