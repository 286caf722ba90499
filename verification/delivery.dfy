// Delivery independence: whatever order a DAG's headers arrive in, once they all
// have, the node holds exactly that DAG and no orphan.
module Delivery {
  import opened Blocks
  import opened Seqs
  import opened Ghostdag
  import opened OrderIndependence
  import opened SortedKeys
  import opened Protocol
  import opened Sync
  import opened SyncInvariant
  import opened SyncSafety
  import opened SyncRuns

  // `g` is part of the DAG `full`.
  ghost predicate PartOf(g: Dag, full: Dag) {
    Compatible(g, full) && g.headers.Keys <= full.headers.Keys
  }

  predicate BlockOf(full: Dag, h: Header) {
    h.hash in full.headers && full.headers[h.hash] == h
  }

  // Orphans belong to `full` too.
  ghost predicate Towards(s: State, full: Dag) {
    PartOf(s.dag, full) && forall c :: c in s.orphans ==> s.orphans[c].header.hash == c && BlockOf(full, s.orphans[c].header)
  }

  ghost function Seen(s: State): set<Id> {
    s.dag.headers.Keys + s.orphans.Keys
  }

  // From `s` to `t`: still part of `full`, nothing lost, `arrived` now seen.
  ghost predicate Advanced(s: State, t: State, full: Dag, arrived: set<Id>) {
    Towards(t, full) && s.dag.headers.Keys <= t.dag.headers.Keys && Seen(t) == Seen(s) + arrived
  }

  // The orphan pool can hold all of `full` that is missing.
  ghost predicate Room(config: Config, s: State, full: Dag) {
    |full.headers.Keys - s.dag.headers.Keys| <= config.maxOrphans
  }

  lemma PartsAgree(g: Dag, full: Dag)
    requires Consistent(g) && Consistent(full) && PartOf(g, full)
    ensures Agree(g, full, g.headers.Keys)
  {
    SameBlocksSameData(g, full);
    ParentsHeld(g);
  }

  lemma DerivesTowards(g: Dag, full: Dag, h: Header)
    requires Consistent(g) && Consistent(full) && PartOf(g, full)
    requires BlockOf(full, h) && h.hash !in g.headers && AllHeld(g, h.parents)
    ensures Attachable(g, h) && Derive(g, h).Ok?
  {
    assert Derived(full, h.hash) && h.hash != full.genesis;
    assert Placed(full, h.hash);
    PartsAgree(g, full);
    assert forall p :: p in h.parents ==> p in g.headers;
    DeriveLocal(g, full, g.headers.Keys, h);
  }

  // A block of `full` whose parents are held is always taken.
  lemma TakenTowards(g: Dag, full: Dag, h: Header)
    requires Consistent(g) && Consistent(full) && PartOf(g, full)
    requires BlockOf(full, h) && h.hash !in g.headers && AllHeld(g, h.parents)
    ensures Grown(g, h).Some? && Consistent(Grown(g, h).value) && PartOf(Grown(g, h).value, full)
    ensures Grown(g, h).value.headers.Keys == g.headers.Keys + {h.hash}
  {
    DerivesTowards(g, full, h);
    assert FirstMissing(g, h.parents).None?;
    GrownIsConsistent(g, h);
  }

  /* ---------- resolution ---------- */

  lemma ReleaseTowards(s: State, full: Dag, child: Id)
    requires Consistent(s.dag) && Consistent(full) && Towards(s, full) && Stored(s.orphans, s.dag.headers.Keys)
    requires Releasable(s, child)
    ensures var t := Release(s, child).0; Advanced(s, t, full, {})
  {
    TakenTowards(s.dag, full, s.orphans[child].header);
    ReleaseLeaves(s, child);
    GrownIsConsistent(s.dag, s.orphans[child].header);
    assert Release(s, child).0.dag == Grown(s.dag, s.orphans[child].header).value;
  }

  lemma AdvancedTwice(s: State, t: State, u: State, full: Dag, more: set<Id>)
    requires Advanced(s, t, full, more) && Advanced(t, u, full, {})
    ensures Advanced(s, u, full, more)
  {
  }

  lemma ReleaseOneTowards(s: State, full: Dag, children: seq<Id>, queue: seq<Id>, child: Id, bound: nat)
    requires Consistent(s.dag) && Consistent(full) && Towards(s, full)
    requires Resolving(s, queue, [child] + children, bound) && Releasable(s, child)
    ensures var (t, _, more) := Release(s, child);
      Consistent(t.dag) && Resolving(t, queue + more, children, bound) && Advanced(s, t, full, {})
  {
    ReleaseTowards(s, full, child);
    ReleaseLeaves(s, child);
    ReleaseKeeps(s, queue, children, child, bound);
  }

  lemma {:induction false} ReleaseAllTowards(s: State, full: Dag, children: seq<Id>, actions: seq<Action>,
      queue: seq<Id>, bound: nat)
    requires Consistent(s.dag) && Consistent(full) && Towards(s, full) && Resolving(s, queue, children, bound)
    ensures var t := ReleaseAll(s, children, actions, queue).0; Advanced(s, t, full, {})
    decreases |children|
  {
    if children != [] {
      var child, rest := children[0], children[1..];
      assert children == [child] + rest;
      if Releasable(s, child) {
        var r := Release(s, child);
        ReleaseOneTowards(s, full, rest, queue, child, bound);
        ReleaseAllTowards(r.0, full, rest, actions + r.1, queue + r.2, bound);
        ReleaseAllFirst(s, children, actions, queue);
        AdvancedTwice(s, r.0, ReleaseAll(r.0, rest, actions + r.1, queue + r.2).0, full, {});
      } else {
        PassedOver(s, queue, rest, child, bound);
        ReleaseAllTowards(s, full, rest, actions, queue, bound);
      }
    } else {
      Unmoved(s, full);
    }
  }

  lemma ReleaseAllFirst(s: State, children: seq<Id>, actions: seq<Action>, queue: seq<Id>)
    requires children != [] && Releasable(s, children[0])
    ensures var r := Release(s, children[0]);
      ReleaseAll(s, children, actions, queue) == ReleaseAll(r.0, children[1..], actions + r.1, queue + r.2)
  {
  }

  lemma {:induction false} ResolveTowards(s: State, full: Dag, queue: seq<Id>, actions: seq<Action>, bound: nat)
    requires Consistent(s.dag) && Consistent(full) && Towards(s, full) && Resolving(s, queue, [], bound)
    requires AllIn(queue, s.dag.headers.Keys)
    ensures var t := Resolve(s, queue, actions).0; Advanced(s, t, full, {})
    decreases |s.orphans| + |queue|
  {
    if queue != [] {
      assert queue[0] in queue;
      Popped(s, queue, bound);
      if queue[0] in s.waiting {
        var children := Ascending(s.waiting[queue[0]]);
        var popped := s.(waiting := s.waiting - {queue[0]});
        var (s1, a, q) := ReleaseAll(popped, children, actions, queue[1..]);
        ReleaseAllTowards(popped, full, children, actions, queue[1..], bound);
        ReleaseAllKeeps(popped, children, actions, queue[1..], bound);
        ReleaseAllQueues(popped, children, actions, queue[1..], bound);
        ResolveTowards(s1, full, q, a, bound);
        AdvancedTwice(s, s1, Resolve(s1, q, a).0, full, {});
      } else {
        ResolveTowards(s, full, queue[1..], actions, bound);
      }
    }
  }

  lemma AcceptedIs(s: State, g: Dag, hash: Id, source: Option<PeerId>)
    ensures AcceptedBlock(s, g, hash, source).0 == Resolve(JoinedState(s, g, hash, source), [hash], []).0
  {
  }

  lemma JoinedTowards(s: State, t: State, full: Dag, h: Header)
    requires Towards(s, full) && t.orphans == s.orphans
    requires PartOf(t.dag, full) && t.dag.headers.Keys == s.dag.headers.Keys + {h.hash}
    ensures Advanced(s, t, full, {h.hash})
  {
  }

  lemma AcceptedTowards(config: Config, s: State, full: Dag, h: Header, source: Option<PeerId>)
    requires Consistent(s.dag) && Consistent(full) && Towards(s, full) && Inv(config, s) && BlockOf(full, h)
    requires AllHeld(s.dag, h.parents)
    requires !Sync.Known(s, h.hash) && h.hash !in s.requested
    ensures Grown(s.dag, h).Some?
    ensures var t := AcceptedBlock(s, Grown(s.dag, h).value, h.hash, source).0;
      Advanced(s, t, full, {h.hash})
  {
    TakenTowards(s.dag, full, h);
    var g := Grown(s.dag, h).value;
    JoinedResolves(config, s, h, source);
    var joined := JoinedState(s, g, h.hash, source);
    JoinedTowards(s, joined, full, h);
    ResolveTowards(joined, full, [h.hash], [], Bound(config));
    AdvancedTwice(s, joined, Resolve(joined, [h.hash], []).0, full, {h.hash});
    AcceptedIs(s, g, h.hash, source);
  }

  /* ---------- one block ---------- */

  // There is room for one more orphan without evicting any.
  lemma RoomForOne(config: Config, s: State, full: Dag, h: Header)
    requires Consistent(s.dag) && Consistent(full) && Towards(s, full) && Inv(config, s) && Room(config, s, full)
    requires BlockOf(full, h) && !Sync.Known(s, h.hash)
    ensures |s.orphans| < config.maxOrphans
  {
    var missing := full.headers.Keys - s.dag.headers.Keys;
    assert s.orphans.Keys + {h.hash} <= missing;
    SubsetCount(s.orphans.Keys + {h.hash}, missing);
    assert |s.orphans.Keys + {h.hash}| == |s.orphans| + 1;
  }

  lemma AdmitTowards(config: Config, s: State, full: Dag, h: Header, source: PeerId, now: nat)
    requires Consistent(s.dag) && Consistent(full) && Towards(s, full) && Inv(config, s) && Room(config, s, full)
    requires BlockOf(full, h)
    requires !Sync.Known(s, h.hash) && h.hash !in s.requested
    ensures var t := Admit(config, s, h, source, now).0; Advanced(s, t, full, {h.hash})
  {
    if AllHeld(s.dag, h.parents) {
      var rewarded := s.(peers := WithPeer(s.peers, source, (p: PeerState) => Rewarded(p)));
      PeersAndBodiesAreFree(config, s, rewarded);
      AcceptedTowards(config, rewarded, full, h, Some(source));
      assert Grown(rewarded.dag, h) == Grown(s.dag, h);
    } else {
      HeldTowards(config, s, full, h, source, now);
    }
  }

  lemma HeldTowards(config: Config, s: State, full: Dag, h: Header, source: PeerId, now: nat)
    requires Consistent(s.dag) && Consistent(full) && Towards(s, full) && Inv(config, s) && Room(config, s, full)
    requires BlockOf(full, h)
    requires !Sync.Known(s, h.hash) && !AllHeld(s.dag, h.parents)
    ensures var t := Admit(config, s, h, source, now).0; Advanced(s, t, full, {h.hash})
  {
    RoomForOne(config, s, full, h);
    MustWait(s.dag, h);
    assert Evicted(s, config.maxOrphans) == s;
    var held := Hold(s, h, source);
    HoldTowards(s, full, h, source);
    RequestFromLeaves(held, source, Unknown(s, h.parents), now);
    var t := Admit(config, s, h, source, now).0;
    assert t == RequestFrom(held, source, Unknown(s, h.parents), now).0;
    assert t.dag == held.dag && t.orphans == held.orphans;
  }

  lemma HoldTowards(s: State, full: Dag, h: Header, source: PeerId)
    requires Towards(s, full) && BlockOf(full, h)
    ensures Advanced(s, Hold(s, h, source), full, {h.hash})
  {
    var t := Hold(s, h, source);
    assert t.orphans.Keys == s.orphans.Keys + {h.hash};
  }

  lemma MustWait(g: Dag, h: Header)
    requires Consistent(g) && h.hash !in g.headers && !AllHeld(g, h.parents)
    ensures Grown(g, h).None? && LacksParent(g, h)
  {
    if Grown(g, h).Some? { GrownIsConsistent(g, h); }
  }

  lemma RequestFromLeaves(s: State, peer: PeerId, hashes: seq<Id>, now: nat)
    ensures var t := RequestFrom(s, peer, hashes, now).0; t == s.(requested := t.requested)
  {
  }

  // Blocks of `full` name other blocks as parents.
  lemma NoOwnParents(full: Dag, h: Header)
    requires Consistent(full) && BlockOf(full, h)
    ensures NotOwnParent(h)
  {
    if h.hash in h.parents { ParentIsLower(full, h.hash, h.hash); }
  }

  // Everything that keeps a node on its way to holding `full`.
  ghost predicate Fed(config: Config, s: State, full: Dag) {
    Inv(config, s) && Towards(s, full) && Room(config, s, full)
  }

  lemma RoomGrows(config: Config, s: State, t: State, full: Dag)
    requires Room(config, s, full) && s.dag.headers.Keys <= t.dag.headers.Keys
    ensures Room(config, t, full)
  {
    SubsetCount(full.headers.Keys - t.dag.headers.Keys, full.headers.Keys - s.dag.headers.Keys);
  }

  lemma ReceivedTowards(config: Config, s: State, full: Dag, peer: PeerId, block: Payload)
    requires Fed(config, s, full)
    ensures var t := Received(s, peer, block.header.hash).(bodies := s.bodies[block.header.hash := block.transactions]);
      Fed(config, t, full) && t.dag == s.dag && t.orphans == s.orphans && block.header.hash !in t.requested
  {
    ReceivedKeeps(config, s, peer, block.header.hash);
    var s1 := Received(s, peer, block.header.hash);
    PeersAndBodiesAreFree(config, s1, s1.(bodies := s.bodies[block.header.hash := block.transactions]));
  }

  // The block rejected is the last of its batch.
  ghost predicate Ends(config: Config, gate: Gate, s: State, peer: PeerId, block: Payload, now: nat,
      actions: seq<Action>) {
    !Lands(gate, s, block) && Drops(actions + OnBlock(config, gate, s, peer, block, now).1)
  }

  lemma OnBlocksStep(config: Config, gate: Gate, s: State, peer: PeerId, blocks: seq<Payload>, now: nat,
      actions: seq<Action>)
    requires blocks != []
    ensures var r := OnBlock(config, gate, s, peer, blocks[0], now);
      OnBlocks(config, gate, s, peer, blocks, now, actions)
      == if Ends(config, gate, s, peer, blocks[0], now, actions) then (r.0, actions + r.1)
         else OnBlocks(config, gate, r.0, peer, blocks[1..], now, actions + r.1)
  {
  }

  // A block already seen changes only what the peer is known to hold.
  lemma SeenTowards(config: Config, gate: Gate, s: State, full: Dag, peer: PeerId, block: Payload, now: nat)
    requires Towards(s, full) && Sync.Known(s, block.header.hash)
    ensures Advanced(s, OnBlock(config, gate, s, peer, block, now).0, full, {block.header.hash})
  {
    var t := OnBlock(config, gate, s, peer, block, now).0;
    assert t.dag == s.dag && t.orphans == s.orphans;
  }

  lemma NewTowards(config: Config, gate: Gate, s: State, full: Dag, peer: PeerId, block: Payload, now: nat)
    requires Consistent(s.dag) && Consistent(full) && Fed(config, s, full)
    requires BlockOf(full, block.header) && gate(block.header) && !Sync.Known(s, block.header.hash)
    ensures Advanced(s, OnBlock(config, gate, s, peer, block, now).0, full, {block.header.hash})
  {
    var h := block.header;
    var r := Received(s, peer, h.hash).(bodies := s.bodies[h.hash := block.transactions]);
    OnBlockAdmits(config, gate, s, peer, block, now);
    ReceivedTowards(config, s, full, peer, block);
    AdmitTowards(config, r, full, h, peer, now);
    SameStart(s, r, Admit(config, r, h, peer, now).0, full, {h.hash});
  }

  lemma SameStart(s: State, r: State, t: State, full: Dag, more: set<Id>)
    requires r.dag == s.dag && r.orphans == s.orphans && Advanced(r, t, full, more)
    ensures Advanced(s, t, full, more)
  {
  }

  // Room and invariant carry over an advance.
  lemma StillFed(config: Config, s: State, t: State, full: Dag, more: set<Id>)
    requires Fed(config, s, full) && Advanced(s, t, full, more) && Inv(config, t)
    ensures Fed(config, t, full)
  {
    RoomGrows(config, s, t, full);
  }

  // The block is seen once handled: it was before, or it passes the gate.
  predicate Lands(gate: Gate, s: State, block: Payload) {
    Sync.Known(s, block.header.hash) || gate(block.header)
  }

  function Landing(gate: Gate, s: State, block: Payload): set<Id> {
    if Lands(gate, s, block) then {block.header.hash} else {}
  }

  lemma OnBlockTowards(config: Config, gate: Gate, s: State, full: Dag, peer: PeerId, block: Payload, now: nat)
    requires Consistent(s.dag) && Consistent(full) && Fed(config, s, full) && peer in s.peers
    requires gate(block.header) ==> BlockOf(full, block.header)
    ensures var t := OnBlock(config, gate, s, peer, block, now).0;
      Advanced(s, t, full, Landing(gate, s, block)) && Consistent(t.dag) && Fed(config, t, full) && SameStanding(s.peers, t.peers)
  {
    var t := OnBlock(config, gate, s, peer, block, now).0;
    if gate(block.header) { NoOwnParents(full, block.header); }
    OnBlockKeeps(config, gate, s, peer, block, now);
    if Sync.Known(s, block.header.hash) {
      SeenTowards(config, gate, s, full, peer, block, now);
    } else if gate(block.header) {
      NewTowards(config, gate, s, full, peer, block, now);
    } else {
      RejectedTowards(config, gate, s, full, peer, block, now);
    }
    StillFed(config, s, t, full, Landing(gate, s, block));
  }

  lemma RejectedTowards(config: Config, gate: Gate, s: State, full: Dag, peer: PeerId, block: Payload, now: nat)
    requires Towards(s, full) && !Lands(gate, s, block)
    ensures Advanced(s, OnBlock(config, gate, s, peer, block, now).0, full, {})
  {
    OnBlockRejects(config, gate, s, peer, block, now);
    var t := OnBlock(config, gate, s, peer, block, now).0;
    assert t.dag == s.dag && t.orphans == s.orphans;
  }

  function HashesIn(blocks: seq<Payload>): set<Id> {
    set b | b in blocks :: b.header.hash
  }

  // Whatever passes the gate belongs to `full`.
  ghost predicate FromFull(gate: Gate, full: Dag, blocks: seq<Payload>) {
    forall b :: b in blocks && gate(b.header) ==> BlockOf(full, b.header)
  }

  // The blocks of a batch that land, up to one that has the peer dropped.
  ghost function Landed(config: Config, gate: Gate, s: State, peer: PeerId, blocks: seq<Payload>, now: nat,
      actions: seq<Action>): set<Id>
    decreases |blocks|
  {
    if blocks == [] then {}
    else
      var r := OnBlock(config, gate, s, peer, blocks[0], now);
      if Ends(config, gate, s, peer, blocks[0], now, actions) then {}
      else Landing(gate, s, blocks[0]) + Landed(config, gate, r.0, peer, blocks[1..], now, actions + r.1)
  }

  lemma {:induction false} OnBlocksTowards(config: Config, gate: Gate, s: State, full: Dag, peer: PeerId,
      blocks: seq<Payload>, now: nat, actions: seq<Action>)
    requires Consistent(s.dag) && Consistent(full) && Fed(config, s, full) && peer in s.peers
    requires FromFull(gate, full, blocks)
    ensures var t := OnBlocks(config, gate, s, peer, blocks, now, actions).0;
      && Advanced(s, t, full, Landed(config, gate, s, peer, blocks, now, actions))
      && Consistent(t.dag) && Fed(config, t, full) && SameStanding(s.peers, t.peers)
    decreases |blocks|
  {
    if blocks == [] {
      Unmoved(s, full);
    } else {
      assert blocks[0] in blocks;
      OnBlockTowards(config, gate, s, full, peer, blocks[0], now);
      OnBlocksStep(config, gate, s, peer, blocks, now, actions);
      if !Ends(config, gate, s, peer, blocks[0], now, actions) {
        var r := OnBlock(config, gate, s, peer, blocks[0], now);
        OnBlocksTowards(config, gate, r.0, full, peer, blocks[1..], now, actions + r.1);
        AdvancedOn(s, r.0, OnBlocks(config, gate, r.0, peer, blocks[1..], now, actions + r.1).0, full, Landing(gate, s, blocks[0]),
                   Landed(config, gate, r.0, peer, blocks[1..], now, actions + r.1));
      }
    }
  }

  lemma AdvancedOn(s: State, t: State, u: State, full: Dag, some: set<Id>, more: set<Id>)
    requires Advanced(s, t, full, some) && Advanced(t, u, full, more)
    ensures Advanced(s, u, full, some + more)
  {
  }

  lemma Unmoved(s: State, full: Dag)
    requires Towards(s, full)
    ensures Advanced(s, s, full, {})
  {
  }

  lemma MinedIs(s: State, s1: State, block: Payload)
    requires s1 == s.(bodies := s.bodies[block.header.hash := block.transactions])
    ensures OnLocalBlock(s, block).0
            == if Grown(s.dag, block.header).None? then s1
               else AcceptedBlock(s1, Grown(s.dag, block.header).value, block.header.hash, None).0
  {
  }

  lemma MinedTowards(config: Config, s: State, s1: State, full: Dag, h: Header)
    requires Consistent(s1.dag) && Consistent(full) && Towards(s1, full) && Inv(config, s1) && BlockOf(full, h)
    requires s1.dag == s.dag && s1.orphans == s.orphans && h.hash !in s1.orphans && h.hash !in s1.requested
    requires Grown(s1.dag, h).Some?
    ensures Advanced(s, AcceptedBlock(s1, Grown(s1.dag, h).value, h.hash, None).0, full, {h.hash})
  {
    GrownIsConsistent(s1.dag, h);
    AcceptedTowards(config, s1, full, h, None);
    SameStart(s, s1, AcceptedBlock(s1, Grown(s1.dag, h).value, h.hash, None).0, full, {h.hash});
  }

  // A block of `full` mined here.
  lemma OnLocalBlockTowards(config: Config, s: State, full: Dag, block: Payload)
    requires Consistent(s.dag) && Consistent(full) && Fed(config, s, full) && BlockOf(full, block.header)
    requires block.header.hash !in s.orphans && block.header.hash !in s.requested
    ensures var t := OnLocalBlock(s, block).0;
      Advanced(s, t, full, Joins(s, block)) && Consistent(t.dag) && Fed(config, t, full)
  {
    var s1 := s.(bodies := s.bodies[block.header.hash := block.transactions]);
    PeersAndBodiesAreFree(config, s, s1);
    MinedIs(s, s1, block);
    if Grown(s.dag, block.header).Some? {
      MinedTowards(config, s, s1, full, block.header);
    }
    OnLocalBlockKeeps(config, s, block);
    StillFed(config, s, OnLocalBlock(s, block).0, full, Joins(s, block));
  }

  // A mined block joins unless the DAG refuses it.
  ghost function Joins(s: State, block: Payload): set<Id> {
    if Grown(s.dag, block.header).Some? then {block.header.hash} else {}
  }

  /* ---------- runs ---------- */

  // Whatever blocks the event brings that pass the gate belong to `full`, as does
  // a block mined here, whose hash is fresh.
  ghost predicate Feeds(gate: Gate, full: Dag, s: State, e: Event) {
    match e
    case Mined(block) => BlockOf(full, block.header) && block.header.hash !in s.orphans && block.header.hash !in s.requested
    case Receives(_, message, _) => message.Blocks? ==> FromFull(gate, full, message.blocks)
    case _ => true
  }

  // The blocks an event delivers: those of a ready peer that land, or the mined one.
  ghost function Delivered(config: Config, gate: Gate, s: State, e: Event): set<Id> {
    match e
    case Mined(block) => Joins(s, block)
    case Receives(peer, message, now) =>
      if message.Blocks? && IsReady(s.peers, peer) then Landed(config, gate, s, peer, message.blocks, now, []) else {}
    case _ => {}
  }

  lemma QuietTowards(config: Config, gate: Gate, s: State, e: Event)
    requires Inv(config, s) && !e.Mined?
    requires !(e.Receives? && e.message.Blocks? && IsReady(s.peers, e.source))
    ensures var t := After(config, gate, s, e); t.dag == s.dag && t.orphans == s.orphans && Inv(config, t)
  {
    match e
    case Connected(peer) => PeersAndBodiesAreFree(config, s, OnConnect(config, s, peer).0);
    case Disconnected(peer) => OnDisconnectKeeps(config, s, peer);
    case Receives(peer, message, now) => QuietMessage(config, gate, s, peer, message, now);
    case Ticked(now) => OnTickKeeps(config, s, now);
  }

  lemma QuietMessage(config: Config, gate: Gate, s: State, peer: PeerId, message: Message, now: nat)
    requires Inv(config, s) && !(message.Blocks? && IsReady(s.peers, peer))
    ensures var t := OnMessage(config, gate, s, peer, message, now).0; t.dag == s.dag && t.orphans == s.orphans && Inv(config, t)
  {
    if !message.Blocks? && peer in s.peers {
      OnTalkKeeps(config, gate, s, peer, message, now);
    } else {
      assert OnMessage(config, gate, s, peer, message, now).0 == s;
    }
  }

  lemma AfterTowards(config: Config, gate: Gate, s: State, full: Dag, e: Event)
    requires Consistent(s.dag) && Consistent(full) && Fed(config, s, full) && Feeds(gate, full, s, e)
    ensures var t := After(config, gate, s, e);
      Consistent(t.dag) && Fed(config, t, full) && Seen(t) == Seen(s) + Delivered(config, gate, s, e)
  {
    if e.Receives? && e.message.Blocks? && IsReady(s.peers, e.source) {
      OnBlocksTowards(config, gate, s, full, e.source, e.message.blocks, e.now, []);
      AfterIsOnBlocks(config, gate, s, e);
    } else if e.Mined? {
      OnLocalBlockTowards(config, s, full, e.block);
    } else {
      QuietTowards(config, gate, s, e);
      StillTowards(config, s, After(config, gate, s, e), full);
    }
  }

  lemma ReadyPeerFeeds(config: Config, gate: Gate, s: State, peer: PeerId, blocks: seq<Payload>, now: nat)
    requires IsReady(s.peers, peer)
    ensures OnMessage(config, gate, s, peer, Blocks(blocks), now) == OnBlocks(config, gate, s, peer, blocks, now, [])
  {
  }

  lemma AfterIsOnBlocks(config: Config, gate: Gate, s: State, e: Event)
    requires e.Receives? && e.message.Blocks? && IsReady(s.peers, e.source)
    ensures After(config, gate, s, e) == OnBlocks(config, gate, s, e.source, e.message.blocks, e.now, []).0
  {
    ReadyPeerFeeds(config, gate, s, e.source, e.message.blocks, e.now);
  }

  lemma StillTowards(config: Config, s: State, t: State, full: Dag)
    requires Fed(config, s, full) && Inv(config, t) && t.dag == s.dag && t.orphans == s.orphans
    ensures Fed(config, t, full) && Seen(t) == Seen(s) + {}
  {
  }

  type Gaining = (State, Event) -> set<Id>

  ghost function GainOf(config: Config, gate: Gate): Gaining {
    (s: State, e: Event) => Delivered(config, gate, s, e)
  }

  // All that a run delivers.
  ghost function Gains(step: Stepping, gain: Gaining, s: State, events: seq<Event>): set<Id>
    decreases |events|
  {
    if events == [] then {} else gain(s, events[0]) + Gains(step, gain, step(s, events[0]), events[1..])
  }

  ghost function DeliveredBy(config: Config, gate: Gate, s: State, events: seq<Event>): set<Id> {
    Gains(StepOf(config, gate), GainOf(config, gate), s, events)
  }

  ghost predicate AllFeed(config: Config, gate: Gate, full: Dag, s: State, events: seq<Event>) {
    AllAllowed(StepOf(config, gate), (t: State, e: Event) => Feeds(gate, full, t, e), s, events)
  }

  lemma {:induction false} FoldGains(step: Stepping, gain: Gaining, feeds: (State, Event) -> bool, ok: State -> bool,
      s: State, events: seq<Event>)
    requires ok(s) && AllAllowed(step, feeds, s, events)
    requires forall t, e {:trigger step(t, e)} :: ok(t) && feeds(t, e) ==> ok(step(t, e)) && Seen(step(t, e)) == Seen(t) + gain(t, e)
    ensures var t := Fold(step, s, events); ok(t) && Seen(t) == Seen(s) + Gains(step, gain, s, events)
    decreases |events|
  {
    if events != [] {
      FoldGains(step, gain, feeds, ok, step(s, events[0]), events[1..]);
    }
  }

  lemma RunTowards(config: Config, gate: Gate, s: State, full: Dag, events: seq<Event>)
    requires Consistent(s.dag) && Consistent(full) && Fed(config, s, full) && AllFeed(config, gate, full, s, events)
    ensures var t := Run(config, gate, s, events);
      Consistent(t.dag) && Fed(config, t, full) && Seen(t) == Seen(s) + DeliveredBy(config, gate, s, events)
  {
    var step, gain, ok := StepOf(config, gate), GainOf(config, gate),
        (t: State) => Consistent(t.dag) && Fed(config, t, full);
    var feeds := (t: State, e: Event) => Feeds(gate, full, t, e);
    forall t, e | ok(t) && feeds(t, e) ensures ok(step(t, e)) && Seen(step(t, e)) == Seen(t) + gain(t, e) {
      AfterTowards(config, gate, t, full, e);
    }
    FoldGains(step, gain, feeds, ok, s, events);
  }

  // The lowest orphan's parents are all in the DAG, so there is none.
  lemma {:induction false} NoOrphanLeft(config: Config, s: State, full: Dag, c: Id)
    requires Consistent(full) && Fed(config, s, full) && Seen(s) == full.headers.Keys && c in full.headers
    ensures c in s.dag.headers
    decreases full.data[c].height
  {
    if c !in s.dag.headers {
      assert c in s.orphans;
      forall p | p in full.headers[c].parents ensures p in s.dag.headers {
        ParentIsLower(full, p, c);
        NoOrphanLeft(config, s, full, p);
      }
      assert Complete(s.orphans, s.dag.headers.Keys, c);
    }
  }

  // Delivery independence: with room for all that is missing, once every block
  // of `full` has been delivered or mined, in whatever order, with whatever
  // repetition and among whatever other traffic - rejected blocks, inventories,
  // connections, timeouts - no orphan is left and the DAG is `full`.
  lemma DeliveryIndependence(config: Config, gate: Gate, s: State, full: Dag, events: seq<Event>)
    requires Consistent(s.dag) && Consistent(full) && Fed(config, s, full) && AllFeed(config, gate, full, s, events)
    requires full.headers.Keys <= Seen(s) + DeliveredBy(config, gate, s, events)
    ensures var t := Run(config, gate, s, events); t.orphans == map[] && t.dag == full
  {
    RunTowards(config, gate, s, full, events);
    AllArrived(config, Run(config, gate, s, events), full);
  }

  lemma AllArrived(config: Config, t: State, full: Dag)
    requires Consistent(t.dag) && Consistent(full) && Fed(config, t, full) && full.headers.Keys <= Seen(t)
    ensures t.orphans == map[] && t.dag == full
  {
    assert Seen(t) <= full.headers.Keys;
    forall c | c in full.headers ensures c in t.dag.headers {
      NoOrphanLeft(config, t, full, c);
    }
    SameBlocksSameData(t.dag, full);
    assert forall c :: c in t.orphans ==> c in full.headers;
  }

  /* ---------- batches from ready peers ---------- */

  // Blocks of `full` that pass the gate.
  ghost predicate AllOf(gate: Gate, full: Dag, blocks: seq<Payload>) {
    forall b :: b in blocks ==> BlockOf(full, b.header) && gate(b.header)
  }

  // A batch of such blocks from one of these peers.
  ghost predicate IsBatch(gate: Gate, full: Dag, peers: Peers, e: Event) {
    e.Receives? && e.message.Blocks? && IsReady(peers, e.source) && AllOf(gate, full, e.message.blocks)
  }

  function Arrivals(events: seq<Event>): set<Id> {
    if events == [] then {} else ArrivalsOf(events[0]) + Arrivals(events[1..])
  }

  function ArrivalsOf(e: Event): set<Id> {
    if e.Receives? && e.message.Blocks? then HashesIn(e.message.blocks) else {}
  }

  // Every block that passes the gate lands.
  lemma {:induction false} AllLand(config: Config, gate: Gate, s: State, peer: PeerId, blocks: seq<Payload>, now: nat,
      actions: seq<Action>)
    requires forall b :: b in blocks ==> gate(b.header)
    ensures Landed(config, gate, s, peer, blocks, now, actions) == HashesIn(blocks)
    decreases |blocks|
  {
    if blocks != [] {
      var r := OnBlock(config, gate, s, peer, blocks[0], now);
      assert forall b :: b in blocks <==> b == blocks[0] || b in blocks[1..];
      AllLand(config, gate, r.0, peer, blocks[1..], now, actions + r.1);
      assert HashesIn(blocks) == {blocks[0].header.hash} + HashesIn(blocks[1..]);
    }
  }

  lemma {:induction false} FoldArrivals(step: Stepping, gain: Gaining, batch: Event -> bool,
      feeds: (State, Event) -> bool, ok: State -> bool, s: State, events: seq<Event>)
    requires ok(s) && forall e :: e in events ==> batch(e)
    requires forall t, e {:trigger step(t, e)} {:trigger gain(t, e)} {:trigger feeds(t, e)} ::
      ok(t) && batch(e) ==> ok(step(t, e)) && gain(t, e) == ArrivalsOf(e) && feeds(t, e)
    ensures Gains(step, gain, s, events) == Arrivals(events) && AllAllowed(step, feeds, s, events)
    decreases |events|
  {
    if events != [] {
      var e := events[0];
      assert e in events && batch(e);
      var next := step(s, e);
      assert ok(next) && gain(s, e) == ArrivalsOf(e) && feeds(s, e);
      FoldArrivals(step, gain, batch, feeds, ok, next, events[1..]);
    }
  }

  ghost predicate FedBy(config: Config, peers: Peers, full: Dag, t: State) {
    Consistent(t.dag) && Fed(config, t, full) && SameStanding(peers, t.peers)
  }

  lemma BatchFed(config: Config, gate: Gate, peers: Peers, full: Dag, t: State, peer: PeerId, blocks: seq<Payload>,
      now: nat)
    requires Consistent(full) && FedBy(config, peers, full, t) && peer in t.peers && AllOf(gate, full, blocks)
    ensures FedBy(config, peers, full, OnBlocks(config, gate, t, peer, blocks, now, []).0)
    ensures FromFull(gate, full, blocks) && Landed(config, gate, t, peer, blocks, now, []) == HashesIn(blocks)
  {
    OnBlocksTowards(config, gate, t, full, peer, blocks, now, []);
    AllLand(config, gate, t, peer, blocks, now, []);
  }

  lemma BatchStep(config: Config, gate: Gate, peers: Peers, full: Dag, t: State, e: Event)
    requires Consistent(full) && FedBy(config, peers, full, t) && IsBatch(gate, full, peers, e)
    ensures FedBy(config, peers, full, After(config, gate, t, e)) && Feeds(gate, full, t, e)
    ensures Delivered(config, gate, t, e) == ArrivalsOf(e)
  {
    BatchFed(config, gate, peers, full, t, e.source, e.message.blocks, e.now);
    AfterIsOnBlocks(config, gate, t, e);
  }

  lemma BatchesDeliver(config: Config, gate: Gate, s: State, full: Dag, events: seq<Event>)
    requires Consistent(s.dag) && Consistent(full) && Fed(config, s, full)
    requires forall e :: e in events ==> IsBatch(gate, full, s.peers, e)
    ensures DeliveredBy(config, gate, s, events) == Arrivals(events) && AllFeed(config, gate, full, s, events)
  {
    var step, gain := StepOf(config, gate), GainOf(config, gate);
    var ok := (t: State) => FedBy(config, s.peers, full, t);
    var feeds := (t: State, e: Event) => Feeds(gate, full, t, e);
    var batch := (e: Event) => IsBatch(gate, full, s.peers, e);
    forall t, e | ok(t) && batch(e) ensures ok(step(t, e)) && gain(t, e) == ArrivalsOf(e) && feeds(t, e) {
      BatchStep(config, gate, s.peers, full, t, e);
    }
    FoldArrivals(step, gain, batch, feeds, ok, s, events);
  }

  // Any way of splitting a DAG's headers into batches, in any order and with any
  // repetition, from ready peers, ends with exactly that DAG.
  lemma BatchesInAnyOrder(config: Config, gate: Gate, s: State, full: Dag, events: seq<Event>)
    requires Consistent(s.dag) && Consistent(full) && Fed(config, s, full)
    requires forall e :: e in events ==> IsBatch(gate, full, s.peers, e)
    requires full.headers.Keys <= Seen(s) + Arrivals(events)
    ensures var t := Run(config, gate, s, events); t.orphans == map[] && t.dag == full
  {
    BatchesDeliver(config, gate, s, full, events);
    DeliveryIndependence(config, gate, s, full, events);
  }
}
