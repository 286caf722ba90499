// Every handler keeps the synchronisation invariant, so every run does.
module SyncRuns {
  import opened Blocks
  import opened Seqs
  import opened Ghostdag
  import opened SortedKeys
  import opened Protocol
  import opened Sync
  import opened SyncInvariant
  import opened SyncSafety

  // Changing what is known of connected peers, or the bodies, or the cursor.
  lemma PeersAndBodiesAreFree(config: Config, s: State, t: State)
    requires Inv(config, s)
    requires t == s.(peers := t.peers, bodies := t.bodies, cursor := t.cursor) && s.peers.Keys <= t.peers.Keys
    ensures Inv(config, t)
  {
  }

  lemma FewerRequestsAreFree(config: Config, s: State, t: State)
    requires Inv(config, s) && t == s.(requested := t.requested)
    requires forall h :: h in t.requested ==> h in s.requested && t.requested[h] == s.requested[h]
    ensures Inv(config, t)
  {
  }

  // The header names another hash than its own as parents: what a hash function
  // makes certain.
  predicate NotOwnParent(h: Header) {
    h.hash !in h.parents
  }

  lemma AdmitKeeps(config: Config, s: State, h: Header, source: PeerId, now: nat)
    requires Consistent(s.dag) && Inv(config, s) && source in s.peers && NotOwnParent(h)
    requires !Sync.Known(s, h.hash) && h.hash !in s.requested
    ensures Consistent(Admit(config, s, h, source, now).0.dag) && Inv(config, Admit(config, s, h, source, now).0)
  {
    if Grown(s.dag, h).Some? {
      var rewarded := s.(peers := WithPeer(s.peers, source, (p: PeerState) => Rewarded(p)));
      PeersAndBodiesAreFree(config, s, rewarded);
      AcceptedKeeps(config, rewarded, h, Some(source));
    } else if LacksParent(s.dag, h) {
      StoreOrphanKeeps(config, s, h, source);
      var t := StoreOrphan(config, s, h, source);
      UnknownAre(s, h.parents);
      forall p | p in Unknown(s, h.parents) ensures !Sync.Known(t, p) {
        assert p in h.parents && p != h.hash;
      }
      RequestFromKeeps(config, t, source, Unknown(s, h.parents), now);
    }
  }

  lemma ReceivedKeeps(config: Config, s: State, peer: PeerId, hash: Id)
    requires Inv(config, s)
    ensures Inv(config, Received(s, peer, hash)) && hash !in Received(s, peer, hash).requested
    ensures Received(s, peer, hash).peers.Keys == s.peers.Keys
  {
    var noted := s.(peers := WithPeer(s.peers, peer, (p: PeerState) => Noted(p, hash)));
    PeersAndBodiesAreFree(config, s, noted);
    FewerRequestsAreFree(config, noted, Received(s, peer, hash));
  }

  lemma OnBlockKeeps(config: Config, gate: Gate, s: State, peer: PeerId, block: Payload, now: nat)
    requires Consistent(s.dag) && Inv(config, s) && peer in s.peers
    requires (gate(block.header) ==> NotOwnParent(block.header))
    ensures Consistent(OnBlock(config, gate, s, peer, block, now).0.dag)
    ensures Inv(config, OnBlock(config, gate, s, peer, block, now).0)
    ensures SameStanding(s.peers, OnBlock(config, gate, s, peer, block, now).0.peers)
  {
    var h := block.header;
    ReceivedKeeps(config, s, peer, h.hash);
    if !Sync.Known(s, h.hash) {
      var s1 := Received(s, peer, h.hash);
      if gate(h) {
        var s2 := s1.(bodies := s.bodies[h.hash := block.transactions]);
        PeersAndBodiesAreFree(config, s1, s2);
        AdmitKeeps(config, s2, h, peer, now);
        AdmitKeepsStanding(config, s2, h, peer, now);
        OnBlockAdmits(config, gate, s, peer, block, now);
      } else {
        OnBlockRejects(config, gate, s, peer, block, now);
        PeersAndBodiesAreFree(config, s1, OnBlock(config, gate, s, peer, block, now).0);
      }
    }
  }

  lemma OnBlockAdmits(config: Config, gate: Gate, s: State, peer: PeerId, block: Payload, now: nat)
    requires !Sync.Known(s, block.header.hash) && gate(block.header)
    ensures var r := Received(s, peer, block.header.hash).(bodies := s.bodies[block.header.hash := block.transactions]);
      OnBlock(config, gate, s, peer, block, now) == Admit(config, r, block.header, peer, now)
  {
  }

  // A rejected block changes only the peer's score.
  lemma OnBlockRejects(config: Config, gate: Gate, s: State, peer: PeerId, block: Payload, now: nat)
    requires !Sync.Known(s, block.header.hash) && !gate(block.header)
    ensures var s1 := Received(s, peer, block.header.hash); var t := OnBlock(config, gate, s, peer, block, now).0;
      t == s1.(peers := t.peers) && SameStanding(s1.peers, t.peers) && s1.dag == s.dag
  {
  }

  lemma ReleaseKeepsStanding(s: State, child: Id)
    requires child in s.orphans
    ensures SameStanding(s.peers, Release(s, child).0.peers)
  {
    NotedByKeepsStanding(s.peers, Told(s.peers, Ascending(s.peers.Keys), child, Some(s.orphans[child].source)), child);
  }

  lemma {:induction false} ReleaseAllKeepsStanding(s: State, children: seq<Id>, actions: seq<Action>, queue: seq<Id>)
    ensures SameStanding(s.peers, ReleaseAll(s, children, actions, queue).0.peers)
    decreases |children|
  {
    if children != [] {
      if Releasable(s, children[0]) {
        var (s1, a, more) := Release(s, children[0]);
        ReleaseKeepsStanding(s, children[0]);
        ReleaseAllKeepsStanding(s1, children[1..], actions + a, queue + more);
      } else {
        ReleaseAllKeepsStanding(s, children[1..], actions, queue);
      }
    }
  }

  lemma {:induction false} ResolveKeepsStanding(s: State, queue: seq<Id>, actions: seq<Action>)
    ensures SameStanding(s.peers, Resolve(s, queue, actions).0.peers)
    decreases |s.orphans| + |queue|
  {
    if queue != [] {
      if queue[0] in s.waiting {
        var children := Ascending(s.waiting[queue[0]]);
        var popped := s.(waiting := s.waiting - {queue[0]});
        var (s1, a, q) := ReleaseAll(popped, children, actions, queue[1..]);
        ReleaseAllKeepsStanding(popped, children, actions, queue[1..]);
        ResolveKeepsStanding(s1, q, a);
      } else {
        ResolveKeepsStanding(s, queue[1..], actions);
      }
    }
  }

  lemma AcceptedKeepsStanding(s: State, g: Dag, hash: Id, source: Option<PeerId>)
    ensures SameStanding(s.peers, AcceptedBlock(s, g, hash, source).0.peers)
  {
    NotedByKeepsStanding(s.peers, Told(s.peers, Ascending(s.peers.Keys), hash, source), hash);
    var (s1, _) := Announce(s.(dag := g, accepted := s.accepted + [hash]), hash, source);
    ResolveKeepsStanding(s1, [hash], []);
  }

  lemma {:induction false} EvictedKeepsStanding(s: State, most: nat)
    ensures Evicted(s, most).peers == s.peers
    decreases |s.order|
  {
    if |s.orphans| >= most && s.order != [] {
      EvictedKeepsStanding(EvictOldest(s), most);
    }
  }

  // No handler but connecting and disconnecting changes who is connected.
  lemma AdmitKeepsStanding(config: Config, s: State, h: Header, source: PeerId, now: nat)
    ensures SameStanding(s.peers, Admit(config, s, h, source, now).0.peers)
  {
    if Grown(s.dag, h).Some? {
      AcceptedKeepsStanding(s.(peers := WithPeer(s.peers, source, (p: PeerState) => Rewarded(p))),
          Grown(s.dag, h).value, h.hash, Some(source));
    } else if LacksParent(s.dag, h) {
      EvictedKeepsStanding(s, config.maxOrphans);
    }
  }

  lemma {:induction false} OnBlocksKeeps(config: Config, gate: Gate, s: State, peer: PeerId, blocks: seq<Payload>,
      now: nat, actions: seq<Action>)
    requires Consistent(s.dag) && Inv(config, s) && peer in s.peers
    requires forall b :: b in blocks ==> NotOwnParent(b.header)
    ensures Consistent(OnBlocks(config, gate, s, peer, blocks, now, actions).0.dag)
    ensures Inv(config, OnBlocks(config, gate, s, peer, blocks, now, actions).0)
    decreases |blocks|
  {
    if blocks != [] {
      assert blocks[0] in blocks;
      OnBlockKeeps(config, gate, s, peer, blocks[0], now);
      var (s1, a) := OnBlock(config, gate, s, peer, blocks[0], now);
      OnBlocksKeeps(config, gate, s1, peer, blocks[1..], now, actions + a);
    }
  }

  lemma OnLocalBlockKeeps(config: Config, s: State, block: Payload)
    requires Consistent(s.dag) && Inv(config, s)
    requires block.header.hash !in s.orphans && block.header.hash !in s.requested
    ensures Consistent(OnLocalBlock(s, block).0.dag) && Inv(config, OnLocalBlock(s, block).0)
  {
    var s1 := s.(bodies := s.bodies[block.header.hash := block.transactions]);
    PeersAndBodiesAreFree(config, s, s1);
    if Grown(s.dag, block.header).Some? {
      AcceptedKeeps(config, s1, block.header, None);
    }
  }

  lemma RequestUnknownKeeps(config: Config, s: State, peer: PeerId, hashes: seq<Id>, now: nat)
    requires Inv(config, s) && peer in s.peers
    ensures Inv(config, RequestUnknown(s, peer, hashes, now).0)
    ensures RequestUnknown(s, peer, hashes, now).0.dag == s.dag
    ensures RequestUnknown(s, peer, hashes, now).0.orphans == s.orphans
  {
    UnknownAre(s, hashes);
    RequestFromKeeps(config, s, peer, Unknown(s, hashes), now);
  }

  lemma OnVersionKeeps(config: Config, s: State, peer: PeerId, version: nat, genesis: Id, tips: seq<Id>, now: nat)
    requires Inv(config, s) && peer in s.peers
    ensures Inv(config, OnVersion(config, s, peer, version, genesis, tips, now).0)
    ensures OnVersion(config, s, peer, version, genesis, tips, now).0.dag == s.dag
    ensures OnVersion(config, s, peer, version, genesis, tips, now).0.orphans == s.orphans
  {
    if version != PROTOCOL_VERSION || genesis != config.genesis {
      PeersAndBodiesAreFree(config, s, OnVersion(config, s, peer, version, genesis, tips, now).0);
    } else {
      var noted := s.(peers := s.peers[peer := NotedAll(s.peers[peer].(handshake := Ready), tips)]);
      PeersAndBodiesAreFree(config, s, noted);
      RequestUnknownKeeps(config, noted, peer, tips, now);
    }
  }

  ghost predicate Sane(message: Message) {
    message.Blocks? ==> forall b :: b in message.blocks ==> NotOwnParent(b.header)
  }

  // Messages that bring no blocks leave the DAG alone.
  lemma OnTalkKeeps(config: Config, gate: Gate, s: State, peer: PeerId, message: Message, now: nat)
    requires Inv(config, s) && !message.Blocks? && peer in s.peers
    ensures var t := OnMessage(config, gate, s, peer, message, now).0; Inv(config, t) && t.dag == s.dag && t.orphans == s.orphans
  {
    var t := OnMessage(config, gate, s, peer, message, now).0;
    if IsReady(s.peers, peer) || message.Version? || message.Verack? {
      match message
      case Version(version, genesis, tips) =>
        OnVersionKeeps(config, s, peer, version, genesis, tips, now);
        assert t == OnVersion(config, s, peer, version, genesis, tips, now).0;
      case Tips(tips) =>
        RequestUnknownKeeps(config, s, peer, tips, now);
        assert t == RequestUnknown(s, peer, tips, now).0;
      case InvBlocks(hashes) =>
        OnInvBlocksKeeps(config, s, peer, hashes, now);
        assert t == OnInvBlocks(s, peer, hashes, now).0;
      case _ => OnlyPeersChange(config, gate, s, peer, message, now);
    }
  }

  lemma OnInvBlocksKeeps(config: Config, s: State, peer: PeerId, hashes: seq<Id>, now: nat)
    requires Inv(config, s) && peer in s.peers
    ensures var t := OnInvBlocks(s, peer, hashes, now).0; Inv(config, t) && t.dag == s.dag && t.orphans == s.orphans
  {
    var noted := s.(peers := WithPeer(s.peers, peer, (p: PeerState) => NotedAll(p, hashes)));
    PeersAndBodiesAreFree(config, s, noted);
    RequestUnknownKeeps(config, noted, peer, hashes, now);
  }

  lemma OnlyPeersChange(config: Config, gate: Gate, s: State, peer: PeerId, message: Message, now: nat)
    requires Inv(config, s) && !message.Blocks? && !message.Version? && !message.Tips? && !message.InvBlocks?
    ensures var t := OnMessage(config, gate, s, peer, message, now).0; Inv(config, t) && t.dag == s.dag && t.orphans == s.orphans
  {
    var t := OnMessage(config, gate, s, peer, message, now).0;
    assert t == s.(peers := t.peers) && t.peers.Keys == s.peers.Keys;
    PeersAndBodiesAreFree(config, s, t);
  }

  lemma OnMessageKeeps(config: Config, gate: Gate, s: State, peer: PeerId, message: Message, now: nat)
    requires Consistent(s.dag) && Inv(config, s) && Sane(message)
    ensures var t := OnMessage(config, gate, s, peer, message, now).0; Consistent(t.dag) && Inv(config, t)
  {
    var t := OnMessage(config, gate, s, peer, message, now).0;
    if peer in s.peers && !message.Blocks? {
      OnTalkKeeps(config, gate, s, peer, message, now);
    } else if peer in s.peers && IsReady(s.peers, peer) {
      OnBlocksKeeps(config, gate, s, peer, message.blocks, now, []);
      assert t == OnBlocks(config, gate, s, peer, message.blocks, now, []).0;
    } else {
      assert t == s;
    }
  }

  lemma OnDisconnectKeeps(config: Config, s: State, peer: PeerId)
    requires Inv(config, s)
    ensures Inv(config, OnDisconnect(s, peer))
  {
  }

  /* ---------- the clock ---------- */

  lemma {:induction false} BucketIsStale(stale: seq<Id>, at: nat, n: nat, i: nat)
    requires n > 0
    ensures forall h :: h in Bucket(stale, at, n, i) ==> h in stale
    decreases |stale|
  {
    if stale != [] {
      BucketIsStale(stale[1..], at + 1, n, i);
    }
  }

  lemma {:induction false} OnlyReadyAre(peers: Peers, listed: seq<PeerId>, ready: bool)
    ensures forall p :: p in OnlyReady(peers, listed, ready) ==> p in listed && IsReady(peers, p) == ready
    decreases |listed|
  {
    if listed != [] {
      OnlyReadyAre(peers, listed[1..], ready);
    }
  }

  lemma {:induction false} RetryKeeps(config: Config, s: State, ready: seq<PeerId>, stale: seq<Id>, start: nat,
      now: nat, i: nat, actions: seq<Action>)
    requires Inv(config, s) && (forall p :: p in ready ==> p in s.peers) && forall h :: h in stale ==> !Sync.Known(s, h)
    ensures Inv(config, Retry(s, ready, stale, start, now, i, actions).0)
    ensures Retry(s, ready, stale, start, now, i, actions).0.dag == s.dag
    ensures Retry(s, ready, stale, start, now, i, actions).0.orphans == s.orphans
    decreases |ready| - i
  {
    if i < |ready| {
      var bucket := Bucket(stale, start, |ready|, i);
      BucketIsStale(stale, start, |ready|, i);
      assert ready[i] in ready;
      RequestFromKeeps(config, s, ready[i], bucket, now);
      var (s1, a) := if bucket == [] then (s, []) else RequestFrom(s, ready[i], bucket, now);
      RetryKeeps(config, s1, ready, stale, start, now, i + 1, actions + a);
    }
  }

  lemma DroppedRequests(config: Config, s: State, now: nat)
    requires Inv(config, s)
    ensures var stale := Ascending(Stale(s, config.timeoutMs, now));
      && Inv(config, s.(requested := s.requested - Elems(stale)))
      && forall h :: h in stale ==> !Sync.Known(s, h)
  {
    var stale := Ascending(Stale(s, config.timeoutMs, now));
    AscendingLists(Stale(s, config.timeoutMs, now));
    FewerRequestsAreFree(config, s, s.(requested := s.requested - Elems(stale)));
  }

  lemma ReissuedKeeps(config: Config, s: State, ready: seq<PeerId>, stale: seq<Id>, now: nat, actions: seq<Action>)
    requires Inv(config, s) && (forall p :: p in ready ==> p in s.peers) && forall h :: h in stale ==> !Sync.Known(s, h)
    ensures Inv(config, Reissued(s, ready, stale, now, actions).0)
    ensures Reissued(s, ready, stale, now, actions).0.dag == s.dag
    ensures Reissued(s, ready, stale, now, actions).0.orphans == s.orphans
  {
    if stale != [] && ready != [] {
      var cursor := (s.cursor + 1) % U64;
      PeersAndBodiesAreFree(config, s, s.(cursor := cursor));
      RetryKeeps(config, s.(cursor := cursor), ready, stale, cursor % |ready|, now, 0, actions);
    }
  }

  lemma OnTickKeeps(config: Config, s: State, now: nat)
    requires Inv(config, s)
    ensures Inv(config, OnTick(config, s, now).0)
    ensures OnTick(config, s, now).0.dag == s.dag && OnTick(config, s, now).0.orphans == s.orphans
  {
    var stale := Ascending(Stale(s, config.timeoutMs, now));
    var listed := Ascending(s.peers.Keys);
    var ready := OnlyReady(s.peers, listed, true);
    DroppedRequests(config, s, now);
    AscendingLists(s.peers.Keys);
    OnlyReadyAre(s.peers, listed, true);
    ReissuedKeeps(config, s.(requested := s.requested - Elems(stale)), ready, stale, now,
                  SendAll(OnlyReady(s.peers, listed, false), Opening(config, s)));
  }

  /* ---------- runs ---------- */

  datatype Event =
    | Connected(peer: PeerId)
    | Disconnected(peer: PeerId)
    | Mined(block: Payload)
    | Receives(source: PeerId, message: Message, now: nat)
    | Ticked(tick: nat)

  ghost function After(config: Config, gate: Gate, s: State, e: Event): State {
    match e
    case Connected(peer) => OnConnect(config, s, peer).0
    case Disconnected(peer) => OnDisconnect(s, peer)
    case Mined(block) => OnLocalBlock(s, block).0
    case Receives(peer, message, now) => OnMessage(config, gate, s, peer, message, now).0
    case Ticked(now) => OnTick(config, s, now).0
  }

  // A mined block's hash is fresh, and no header is its own parent.
  ghost predicate Fair(s: State, e: Event) {
    match e
    case Mined(block) => block.header.hash !in s.orphans && block.header.hash !in s.requested
    case Receives(_, message, _) => Sane(message)
    case _ => true
  }

  type Stepping = (State, Event) -> State

  ghost function StepOf(config: Config, gate: Gate): Stepping {
    (s: State, e: Event) => After(config, gate, s, e)
  }

  ghost function Fold(step: Stepping, s: State, events: seq<Event>): State
    decreases |events|
  {
    if events == [] then s else Fold(step, step(s, events[0]), events[1..])
  }

  // The state after a run of events.
  ghost function Run(config: Config, gate: Gate, s: State, events: seq<Event>): State {
    Fold(StepOf(config, gate), s, events)
  }

  ghost predicate AllAllowed(step: Stepping, allowed: (State, Event) -> bool, s: State, events: seq<Event>)
    decreases |events|
  {
    events != [] ==> allowed(s, events[0]) && AllAllowed(step, allowed, step(s, events[0]), events[1..])
  }

  ghost predicate AllFair(config: Config, gate: Gate, s: State, events: seq<Event>) {
    AllAllowed(StepOf(config, gate), (t: State, e: Event) => Fair(t, e), s, events)
  }

  // What every allowed step keeps, every allowed run keeps.
  lemma {:induction false} FoldKeeps(step: Stepping, allowed: (State, Event) -> bool, ok: State -> bool, s: State,
      events: seq<Event>)
    requires ok(s) && AllAllowed(step, allowed, s, events)
    requires forall t, e {:trigger step(t, e)} :: ok(t) && allowed(t, e) ==> ok(step(t, e))
    ensures ok(Fold(step, s, events))
    decreases |events|
  {
    if events != [] {
      FoldKeeps(step, allowed, ok, step(s, events[0]), events[1..]);
    }
  }

  lemma AfterKeeps(config: Config, gate: Gate, s: State, e: Event)
    requires Consistent(s.dag) && Inv(config, s) && Fair(s, e)
    ensures var t := After(config, gate, s, e); Consistent(t.dag) && Inv(config, t)
  {
    var t := After(config, gate, s, e);
    match e
    case Connected(peer) =>
      PeersAndBodiesAreFree(config, s, OnConnect(config, s, peer).0);
      assert t == OnConnect(config, s, peer).0 && t.dag == s.dag;
    case Disconnected(peer) =>
      OnDisconnectKeeps(config, s, peer);
      assert t == OnDisconnect(s, peer) && t.dag == s.dag;
    case Mined(block) =>
      OnLocalBlockKeeps(config, s, block);
      assert t == OnLocalBlock(s, block).0;
    case Receives(peer, message, now) =>
      OnMessageKeeps(config, gate, s, peer, message, now);
      assert t == OnMessage(config, gate, s, peer, message, now).0;
    case Ticked(now) =>
      OnTickKeeps(config, s, now);
      assert t == OnTick(config, s, now).0 && t.dag == s.dag;
  }

  // Whatever is received, mined, connected, lost or timed out, in any order: the
  // eviction queue mirrors the orphan pool within its bound, the waiting index is
  // exact, no orphan is complete, and every request is owed by a connected peer
  // for a block not yet seen.
  lemma RunKeepsInvariant(config: Config, gate: Gate, s: State, events: seq<Event>)
    requires Consistent(s.dag) && Inv(config, s) && AllFair(config, gate, s, events)
    ensures var t := Run(config, gate, s, events); Consistent(t.dag) && Inv(config, t)
  {
    var step, ok := StepOf(config, gate), (t: State) => Consistent(t.dag) && Inv(config, t);
    var fair := (t: State, e: Event) => Fair(t, e);
    forall t, e | ok(t) && fair(t, e) ensures ok(step(t, e)) {
      AfterKeeps(config, gate, t, e);
    }
    FoldKeeps(step, fair, ok, s, events);
  }

  // From the start: any fair run of a new machine.
  lemma NewRunKeepsInvariant(config: Config, gate: Gate, dag: Dag, events: seq<Event>)
    requires Consistent(dag) && AllFair(config, gate, NewSync(dag), events)
    ensures var t := Run(config, gate, NewSync(dag), events); Consistent(t.dag) && Inv(config, t)
  {
    RunKeepsInvariant(config, gate, NewSync(dag), events);
  }
}
