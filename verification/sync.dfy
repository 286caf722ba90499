// DAG synchronisation as functions from state and message to state and actions.
module Sync {
  import opened Blocks
  import opened Seqs
  import opened Ghostdag
  import opened BlueWorks
  import opened SortedKeys
  import opened Protocol

  datatype Config = Config(maxOrphans: nat, timeoutMs: nat, genesis: Id)

  // The cheap header check, structure and proof of work.
  type Gate = Header -> bool

  datatype Orphan = Orphan(header: Header, source: PeerId)

  datatype Request = Request(owner: PeerId, askedAt: nat)

  datatype State = State(
    dag: Dag,
    peers: Peers,
    orphans: map<Id, Orphan>,
    order: seq<Id>,
    waiting: map<Id, set<Id>>,
    requested: map<Id, Request>,
    bodies: map<Id, Body>,
    accepted: seq<Id>,
    cursor: nat)

  const U64: nat := 0x1_0000_0000_0000_0000

  function NewSync(dag: Dag): State {
    State(dag, map[], map[], [], map[], map[], map[], [], 0)
  }

  // What `add_block` makes of the DAG, when it takes the header.
  ghost function Grown(g: Dag, h: Header): Option<Dag> {
    if Grounded(g) && AddBlock(g, h).Ok? then Some(AddBlock(g, h).value) else None
  }

  // Whether `add_block` refuses the header for a missing parent.
  predicate LacksParent(g: Dag, h: Header) {
    h.hash !in g.headers && h.parents != [] && FirstMissing(g, h.parents).Some?
  }

  predicate AllHeld(g: Dag, parents: seq<Id>) {
    forall p :: p in parents ==> p in g.headers
  }

  /* ---------- requests and announcements ---------- */

  function NotRequested(requested: map<Id, Request>, hashes: seq<Id>): seq<Id> {
    if hashes == [] then []
    else (if hashes[0] !in requested then [hashes[0]] else []) + NotRequested(requested, hashes[1..])
  }

  function FirstOf(hashes: seq<Id>, n: nat): seq<Id> {
    if |hashes| > n then hashes[..n] else hashes
  }

  function Marked(requested: map<Id, Request>, hashes: seq<Id>, entry: Request): map<Id, Request>
    decreases |hashes|
  {
    if hashes == [] then requested else Marked(requested[hashes[0] := entry], hashes[1..], entry)
  }

  function ToRequest(s: State, hashes: seq<Id>): seq<Id> {
    FirstOf(NotRequested(s.requested, hashes), MAX_INV_ENTRIES)
  }

  // `request_from`
  function RequestFrom(s: State, peer: PeerId, hashes: seq<Id>, now: nat): (State, seq<Action>) {
    var wanted := ToRequest(s, hashes);
    if wanted == [] then (s, [])
    else (s.(requested := Marked(s.requested, wanted, Request(peer, now))), [Send(peer, GetBlocks(wanted))])
  }

  // Neither in the DAG nor held as an orphan.
  function Unknown(s: State, hashes: seq<Id>): seq<Id> {
    if hashes == [] then []
    else (if hashes[0] !in s.dag.headers && hashes[0] !in s.orphans then [hashes[0]] else []) + Unknown(s, hashes[1..])
  }

  // `request_unknown`
  function RequestUnknown(s: State, peer: PeerId, hashes: seq<Id>, now: nat): (State, seq<Action>) {
    RequestFrom(s, peer, Unknown(s, hashes), now)
  }

  // `announce`
  ghost function Announce(s: State, hash: Id, exclude: Option<PeerId>): (State, seq<Action>) {
    var targets := Told(s.peers, Ascending(s.peers.Keys), hash, exclude);
    (s.(peers := NotedBy(s.peers, targets, hash)), SendAll(targets, InvBlocks([hash])))
  }

  // `penalise`
  function Penalise(s: State, peer: PeerId, penalty: int, reason: string): (State, seq<Action>) {
    if peer !in s.peers then (s, [])
    else
      var p := Penalised(s.peers[peer], penalty);
      (s.(peers := s.peers[peer := p]), if p.score <= BAN_THRESHOLD then [Disconnect(peer, reason)] else [])
  }

  /* ---------- the orphan pool ---------- */

  function Waits(waiting: map<Id, set<Id>>, p: Id): set<Id> {
    if p in waiting then waiting[p] else {}
  }

  // No longer waiting on any of its parents; emptied entries go.
  function Unwait(waiting: map<Id, set<Id>>, parents: seq<Id>, h: Id): map<Id, set<Id>>
    decreases |parents|
  {
    if parents == [] then waiting
    else
      var p := parents[0];
      var next :=
        if p !in waiting then waiting
        else if waiting[p] - {h} == {} then waiting - {p}
        else waiting[p := waiting[p] - {h}];
      Unwait(next, parents[1..], h)
  }

  function Enrol(waiting: map<Id, set<Id>>, g: Dag, parents: seq<Id>, h: Id): map<Id, set<Id>>
    decreases |parents|
  {
    if parents == [] then waiting
    else
      var p := parents[0];
      Enrol(if p in g.headers then waiting else waiting[p := Waits(waiting, p) + {h}], g, parents[1..], h)
  }

  function EvictOldest(s: State): State
    requires s.order != []
  {
    var oldest := s.order[0];
    var left := s.(order := s.order[1..]);
    if oldest !in s.orphans then left
    else left.(orphans := s.orphans - {oldest}, waiting := Unwait(s.waiting, s.orphans[oldest].header.parents, oldest))
  }

  // Oldest first, until there is room for one more.
  function Evicted(s: State, most: nat): State
    decreases |s.order|
  {
    if |s.orphans| < most || s.order == [] then s else Evicted(EvictOldest(s), most)
  }

  function Hold(s: State, h: Header, source: PeerId): State {
    s.(waiting := Enrol(s.waiting, s.dag, h.parents, h.hash), orphans := s.orphans[h.hash := Orphan(h, source)],
       order := s.order + [h.hash])
  }

  // `store_orphan`
  function StoreOrphan(config: Config, s: State, h: Header, source: PeerId): State {
    Hold(Evicted(s, config.maxOrphans), h, source)
  }

  function Without(order: seq<Id>, h: Id): (r: seq<Id>)
    ensures |r| <= |order|
  {
    if order == [] then [] else (if order[0] != h then [order[0]] else []) + Without(order[1..], h)
  }

  // One orphan whose turn has come: let go, and into the DAG if it is taken.
  ghost function Release(s: State, child: Id): (State, seq<Action>, seq<Id>)
    requires child in s.orphans
  {
    var o := s.orphans[child];
    var s1 := s.(orphans := s.orphans - {child}, order := Without(s.order, child));
    match Grown(s.dag, o.header)
    case None => (s1, [], [])
    case Some(g) =>
      var (s2, actions) := Announce(s1.(dag := g, accepted := s1.accepted + [child]), child, Some(o.source));
      (s2, actions, [child])
  }

  ghost predicate Releasable(s: State, child: Id) {
    child in s.orphans && AllHeld(s.dag, s.orphans[child].header.parents)
  }

  // The orphans that waited on one block, in hash order.
  ghost function ReleaseAll(s: State, children: seq<Id>, actions: seq<Action>,
      queue: seq<Id>): (r: (State, seq<Action>, seq<Id>))
    ensures |r.0.orphans| + |r.2| <= |s.orphans| + |queue|
    decreases |children|
  {
    if children == [] then (s, actions, queue)
    else if !Releasable(s, children[0]) then ReleaseAll(s, children[1..], actions, queue)
    else
      var (s1, a, more) := Release(s, children[0]);
      ReleaseAll(s1, children[1..], actions + a, queue + more)
  }

  // `resolve_orphans_of`: terminates, since every block queued was an orphan.
  ghost function Resolve(s: State, queue: seq<Id>, actions: seq<Action>): (State, seq<Action>)
    decreases |s.orphans| + |queue|
  {
    if queue == [] then (s, actions)
    else if queue[0] !in s.waiting then Resolve(s, queue[1..], actions)
    else
      var children := Ascending(s.waiting[queue[0]]);
      var (s1, a, q) := ReleaseAll(s.(waiting := s.waiting - {queue[0]}), children, actions, queue[1..]);
      Resolve(s1, q, a)
  }

  /* ---------- blocks ---------- */

  ghost function AcceptedBlock(s: State, g: Dag, hash: Id, source: Option<PeerId>): (State, seq<Action>) {
    var (s1, announced) := Announce(s.(dag := g, accepted := s.accepted + [hash]), hash, source);
    var (s2, resolved) := Resolve(s1, [hash], []);
    (s2, announced + resolved)
  }

  // `on_local_block`
  ghost function OnLocalBlock(s: State, block: Payload): (State, seq<Action>) {
    var s1 := s.(bodies := s.bodies[block.header.hash := block.transactions]);
    match Grown(s.dag, block.header)
    case None => (s1, [])
    case Some(g) => AcceptedBlock(s1, g, block.header.hash, None)
  }

  // `admit`
  ghost function Admit(config: Config, s: State, h: Header, source: PeerId, now: nat): (State, seq<Action>) {
    match Grown(s.dag, h)
    case Some(g) => AcceptedBlock(s.(peers := WithPeer(s.peers, source, (p: PeerState) => Rewarded(p))), g, h.hash, Some(source))
    case None =>
      if LacksParent(s.dag, h) then RequestFrom(StoreOrphan(config, s, h, source), source, Unknown(s, h.parents), now)
      else (s, [])
  }

  predicate Known(s: State, hash: Id) {
    hash in s.dag.headers || hash in s.orphans
  }

  function Received(s: State, peer: PeerId, hash: Id): State {
    s.(requested := s.requested - {hash}, peers := WithPeer(s.peers, peer, (p: PeerState) => Noted(p, hash)))
  }

  ghost function OnBlock(config: Config, gate: Gate, s: State, peer: PeerId, block: Payload, now: nat): (State,
      seq<Action>) {
    var h := block.header;
    var s1 := Received(s, peer, h.hash);
    if Known(s, h.hash) then (s1, [])
    else if !gate(h) then Penalise(s1, peer, INVALID_BLOCK_PENALTY, "invalid block")
    else Admit(config, s1.(bodies := s1.bodies[h.hash := block.transactions]), h, peer, now)
  }

  predicate Drops(actions: seq<Action>) {
    exists a :: a in actions && a.Disconnect?
  }

  // `on_blocks`: a rejected block ends the batch once the peer is to be dropped.
  ghost function OnBlocks(config: Config, gate: Gate, s: State, peer: PeerId, blocks: seq<Payload>, now: nat,
      actions: seq<Action>): (State, seq<Action>)
    decreases |blocks|
  {
    if blocks == [] then (s, actions)
    else
      var (s1, a) := OnBlock(config, gate, s, peer, blocks[0], now);
      if !Known(s, blocks[0].header.hash) && !gate(blocks[0].header) && Drops(actions + a) then (s1, actions + a)
      else OnBlocks(config, gate, s1, peer, blocks[1..], now, actions + a)
  }

  function Served(s: State, hashes: seq<Id>): seq<Payload> {
    if hashes == [] then []
    else
      var h := hashes[0];
      (if h in s.dag.headers then [Payload(s.dag.headers[h], if h in s.bodies then s.bodies[h] else [])] else [])
      + Served(s, hashes[1..])
  }

  function HashesOf(blocks: seq<Payload>): seq<Id> {
    if blocks == [] then [] else [blocks[0].header.hash] + HashesOf(blocks[1..])
  }

  // `on_get_blocks`
  function OnGetBlocks(s: State, peer: PeerId, hashes: seq<Id>): (State, seq<Action>) {
    var blocks := Served(s, FirstOf(hashes, MAX_BLOCK_BATCH));
    if blocks == [] then (s, [])
    else (s.(peers := WithPeer(s.peers, peer, (p: PeerState) => NotedAll(p, HashesOf(blocks)))), [Send(peer, Blocks(blocks))])
  }

  /* ---------- handlers ---------- */

  ghost function Opening(config: Config, s: State): Message {
    Version(PROTOCOL_VERSION, config.genesis, TipList(s.dag))
  }

  ghost function OnConnect(config: Config, s: State, peer: PeerId): (State, seq<Action>) {
    (s.(peers := s.peers[peer := NEW_PEER]), [Send(peer, Opening(config, s))])
  }

  function OnDisconnect(s: State, peer: PeerId): State {
    s.(peers := s.peers - {peer}, requested := map h | h in s.requested && s.requested[h].owner != peer :: s.requested[h])
  }

  function OnVersion(config: Config, s: State, peer: PeerId, version: nat, genesis: Id, tips: seq<Id>,
      now: nat): (State, seq<Action>) {
    if version != PROTOCOL_VERSION then Penalise(s, peer, FATAL_PENALTY, "protocol version mismatch")
    else if genesis != config.genesis then Penalise(s, peer, FATAL_PENALTY, "different network")
    else if peer !in s.peers then (s, [])
    else
      var (s1, a) := RequestUnknown(
        s.(peers := s.peers[peer := NotedAll(s.peers[peer].(handshake := Ready), tips)]), peer, tips, now);
      (s1, [Send(peer, Verack)] + a)
  }

  function OnInvBlocks(s: State, peer: PeerId, hashes: seq<Id>, now: nat): (State, seq<Action>) {
    RequestUnknown(s.(peers := WithPeer(s.peers, peer, (p: PeerState) => NotedAll(p, hashes))), peer, hashes, now)
  }

  // `on_message`
  ghost function OnMessage(config: Config, gate: Gate, s: State, peer: PeerId, message: Message, now: nat): (State,
      seq<Action>) {
    if peer !in s.peers then (s, [Disconnect(peer, "message from unknown peer")])
    else if !IsReady(s.peers, peer) && !message.Version? && !message.Verack? then (s, [Send(peer, Opening(config, s))])
    else match message
      case Version(version, genesis, tips) => OnVersion(config, s, peer, version, genesis, tips, now)
      case Verack => (s.(peers := s.peers[peer := s.peers[peer].(handshake := Ready)]), [])
      case Ping(nonce) => (s, [Send(peer, Pong(nonce))])
      case Pong(_) => (s, [])
      case GetTips => (s, [Send(peer, Tips(TipList(s.dag)))])
      case Tips(tips) => RequestUnknown(s, peer, tips, now)
      case InvBlocks(hashes) => OnInvBlocks(s, peer, hashes, now)
      case GetBlocks(hashes) => OnGetBlocks(s, peer, hashes)
      case Blocks(blocks) => OnBlocks(config, gate, s, peer, blocks, now, [])
      case InvTxs(_) => (s, [])
      case GetTxs(_) => (s, [])
  }

  /* ---------- the clock ---------- */

  function Stale(s: State, timeout: nat, now: nat): set<Id> {
    set h | h in s.requested && (if now > s.requested[h].askedAt then now - s.requested[h].askedAt else 0) > timeout
  }

  // The hashes the `i`th of `n` peers is asked for, dealing them out from `at`.
  function Bucket(stale: seq<Id>, at: nat, n: nat, i: nat): seq<Id>
    requires n > 0
  {
    if stale == [] then []
    else (if at % n == i then [stale[0]] else []) + Bucket(stale[1..], at + 1, n, i)
  }

  function Retry(s: State, ready: seq<PeerId>, stale: seq<Id>, start: nat, now: nat, i: nat,
      actions: seq<Action>): (State, seq<Action>)
    decreases |ready| - i
  {
    if i >= |ready| then (s, actions)
    else
      var bucket := Bucket(stale, start, |ready|, i);
      var (s1, a) := if bucket == [] then (s, []) else RequestFrom(s, ready[i], bucket, now);
      Retry(s1, ready, stale, start, now, i + 1, actions + a)
  }

  // The stale requests, dealt out over the ready peers from a moving start.
  function Reissued(s: State, ready: seq<PeerId>, stale: seq<Id>, now: nat, actions: seq<Action>): (State,
      seq<Action>) {
    if stale == [] || ready == [] then (s, actions)
    else
      var cursor := (s.cursor + 1) % U64;
      Retry(s.(cursor := cursor), ready, stale, cursor % |ready|, now, 0, actions)
  }

  // `on_tick`
  ghost function OnTick(config: Config, s: State, now: nat): (State, seq<Action>) {
    var stale := Ascending(Stale(s, config.timeoutMs, now));
    var listed := Ascending(s.peers.Keys);
    var ready, unready := OnlyReady(s.peers, listed, true), OnlyReady(s.peers, listed, false);
    var (s1, a) := Reissued(s.(requested := s.requested - Elems(stale)), ready, stale, now, SendAll(unready, Opening(config, s)));
    (s1, a + SendAll(ready, GetTips))
  }
}
